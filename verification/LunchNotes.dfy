/** The kitchen summary of a lunch special and the way back to the customer's own note:
    `addSpecialInstructions` (apps/application/src/components/menu-item-builder.tsx) and
    `buildSpecialInstructions` (apps/web/src/components/lunch-special-builder.tsx) print,
    `customerCustomizationInstructions` (packages/customization/src/index.ts) parses. */
module LunchNotes {
  import opened Strings
  import opened MenuText

  // ----- splitting

  function DropNewlines(s: string): (r: string)
    ensures |r| <= |s|
  {
    if s != [] && s[0] == '\n' then DropNewlines(s[1..]) else s
  }

  predicate StartsBlank(s: string) {
    |s| >= 2 && s[0] == '\n' && s[1] == '\n'
  }

  /** `s.split(/\n\n+/)`. */
  function SplitBlank(s: string): (r: seq<string>)
    ensures r != []
    decreases |s|
  {
    if s == [] then [""]
    else if StartsBlank(s) then [""] + SplitBlank(DropNewlines(s[2..]))
    else
      var rest := SplitBlank(s[1..]);
      [[s[0]] + rest[0]] + rest[1..]
  }

  function Nonempty(parts: seq<string>): seq<string> {
    if parts == [] then [] else (if parts[0] != "" then [parts[0]] else []) + Nonempty(parts[1..])
  }

  function TrimAll(parts: seq<string>): (r: seq<string>)
    ensures |r| == |parts| && forall i :: 0 <= i < |r| ==> r[i] == Trim(parts[i])
  {
    seq(|parts|, i requires 0 <= i < |parts| => Trim(parts[i]))
  }

  /** The trimmed, nonempty pieces between bars. */
  function BarParts(s: string): seq<string> {
    Nonempty(TrimAll(Split(s, '|')))
  }

  // ----- the parser

  function Removal(web: bool): string { if web then "No: " else "No " }

  function Addition(web: bool): string { if web then "Add: " else "Add " }

  const BUNDLE_SUMMARY := "Add-on: Small fries + pop"

  predicate IsSummary(part: string) {
    StartsWith(Trim(part), BUNDLE_SUMMARY)
  }

  function WithoutSummaries(parts: seq<string>): seq<string> {
    if parts == [] then []
    else (if IsSummary(parts[0]) then [] else [parts[0]]) + WithoutSummaries(parts[1..])
  }

  function Cleaned(text: string): string {
    Trim(Join(WithoutSummaries(SplitBlank(text)), "\n\n"))
  }

  datatype Payload = Payload(builderType: string, childName: Option<string>, removed: seq<string>, added: seq<string>)

  predicate First(parts: seq<string>, s: string) {
    parts != [] && parts[0] == s
  }

  function Shifted(parts: seq<string>): seq<string> {
    if parts == [] then [] else parts[1..]
  }

  /** The first part of a summary. */
  function Opening(web: bool, itemName: string, child: string): string {
    if web then "Lunch " + itemName + ": " + child else child
  }

  /** What is left of a lunch summary once its own header is taken off. */
  function WithoutHeader(parts: seq<string>, web: bool, removed: string, added: string): seq<string> {
    var a := Shifted(parts);
    var b := if removed != "" && First(a, Removal(web) + removed) then Shifted(a) else a;
    if added != "" && First(b, Addition(web) + added) then Shifted(b) else b
  }

  function CustomerNote(text: string, itemName: string, payload: Option<Payload>): string {
    Parsed(Cleaned(text), itemName, payload)
  }

  /** The note once the bundle summaries are out of the text. */
  function Parsed(cleaned: string, itemName: string, payload: Option<Payload>): string {
    if payload.None? || payload.value.builderType != "LUNCH_SPECIAL" then cleaned
    else
      var p := payload.value;
      var parts := BarParts(cleaned);
      var child := if p.childName.Some? then p.childName.value else "undefined";
      var web := First(parts, Opening(true, itemName, child));
      var mobile := if p.childName.Some? then First(parts, p.childName.value) else parts == [];
      if !web && !mobile then cleaned
      else Join(WithoutHeader(parts, web, Join(p.removed, ", "), Join(p.added, ", ")), " | ")
  }

  method CustomerCustomizationInstructions(text: string, itemName: string, payload: Option<Payload>) returns (note: string)
    ensures note == CustomerNote(text, itemName, payload)
  {
    var cleaned := Cleaned(text);
    if payload.None? || payload.value.builderType != "LUNCH_SPECIAL" {
      return cleaned;
    }
    var p := payload.value;
    var removed := Join(p.removed, ", ");
    var added := Join(p.added, ", ");
    var parts := BarParts(cleaned);
    var webFormat := First(parts, "Lunch " + itemName + ": " + (if p.childName.Some? then p.childName.value else "undefined"));
    var mobileFormat := if p.childName.Some? then First(parts, p.childName.value) else parts == [];
    if !webFormat && !mobileFormat {
      return cleaned;
    }
    parts := Shifted(parts);
    if removed != "" && First(parts, (if webFormat then "No: " else "No ") + removed) {
      parts := Shifted(parts);
    }
    if added != "" && First(parts, (if webFormat then "Add: " else "Add ") + added) {
      parts := Shifted(parts);
    }
    return Join(parts, " | ");
  }

  // ----- the printer

  function HeaderParts(web: bool, opening: string, removed: seq<string>, added: seq<string>): seq<string> {
    [opening]
    + (if removed != [] then [Removal(web) + Join(removed, ", ")] else [])
    + (if added != [] then [Addition(web) + Join(added, ", ")] else [])
  }

  function Summary(note: string, web: bool, opening: string, removed: seq<string>, added: seq<string>): string {
    Join(HeaderParts(web, opening, removed, added) + (if Trim(note) != "" then [Trim(note)] else []), " | ")
  }

  function LunchPayload(child: string, removed: seq<string>, added: seq<string>): Option<Payload> {
    Some(Payload("LUNCH_SPECIAL", Some(child), removed, added))
  }

  /** A further part of a printed summary, if there is one. */
  function Part(present: bool, text: string): string {
    if present then " | " + text else ""
  }

  lemma {:induction false} SnocPart(parts: seq<string>, present: bool, text: string)
    requires parts != []
    ensures Join(parts + (if present then [text] else []), " | ") == Join(parts, " | ") + Part(present, text)
  {
    if present {
      JoinSnoc(parts, " | ", text);
    } else {
      assert parts + [] == parts;
    }
  }

  /** A summary is its opening, what to leave out, what to add, and the note. */
  lemma {:induction false} SummaryReads(note: string, web: bool, opening: string, removed: seq<string>, added: seq<string>)
    ensures Summary(note, web, opening, removed, added)
         == opening
            + Part(removed != [], (if web then "No: " else "No ") + Join(removed, ", "))
            + Part(added != [], (if web then "Add: " else "Add ") + Join(added, ", "))
            + Part(Trim(note) != "", Trim(note))
  {
    hide Trim, Part;
    var no, more := (if web then "No: " else "No ") + Join(removed, ", "), (if web then "Add: " else "Add ") + Join(added, ", ");
    var a := [opening] + if removed != [] then [no] else [];
    var b := a + if added != [] then [more] else [];
    assert b == HeaderParts(web, opening, removed, added);
    SnocPart([opening], removed != [], no);
    SnocPart(a, added != [], more);
    SnocPart(b, Trim(note) != "", Trim(note));
    assert Join([opening], " | ") == opening;
  }

  /** The kitchen reads the child's dish first, then what to leave out and what to add, then the note.
      What is printed reads back as the settled note, under every name of the lunch item. */
  method AddSpecialInstructions(base: string, child: string, removed: seq<string>, addons: seq<string>) returns (text: string)
    ensures text == Summary(base, false, child, removed, addons)
    ensures text == child + Part(removed != [], "No " + Join(removed, ", ")) + Part(addons != [], "Add " + Join(addons, ", "))
                    + Part(Trim(base) != "", Trim(base))
    ensures CleanName(child) && CleanNames(removed) && CleanNames(addons) && !StartsWith(child, BUNDLE_SUMMARY) ==>
              forall itemName :: CustomerNote(text, itemName, LunchPayload(child, removed, addons)) == Settled(base)
  {
    hide CustomerNote, Settled, CleanName, CleanNames, Trim;
    var parts := [child];
    if |removed| > 0 {
      parts := parts + ["No " + Join(removed, ", ")];
    }
    if |addons| > 0 {
      parts := parts + ["Add " + Join(addons, ", ")];
    }
    if Trim(base) != "" {
      parts := parts + [Trim(base)];
    }
    assert parts == HeaderParts(false, child, removed, addons) + (if Trim(base) != "" then [Trim(base)] else []);
    text := Join(parts, " | ");
    SummaryReads(base, false, child, removed, addons);
    hide Summary, Part;
    if CleanName(child) && CleanNames(removed) && CleanNames(addons) && !StartsWith(child, BUNDLE_SUMMARY) {
      forall itemName ensures CustomerNote(text, itemName, LunchPayload(child, removed, addons)) == Settled(base) {
        RoundTrip(base, false, itemName, child, removed, addons);
      }
    }
  }

  /** What is printed reads back as the settled note. */
  method BuildSpecialInstructions(itemName: string, child: string, removed: seq<string>, addons: seq<string>, userInstructions: string)
    returns (text: string)
    ensures text == Summary(userInstructions, true, Opening(true, itemName, child), removed, addons)
    ensures text == "Lunch " + itemName + ": " + child
                    + Part(removed != [], "No: " + Join(removed, ", ")) + Part(addons != [], "Add: " + Join(addons, ", "))
                    + Part(Trim(userInstructions) != "", Trim(userInstructions))
    ensures CleanName(itemName) && CleanName(child) && CleanNames(removed) && CleanNames(addons) ==>
              CustomerNote(text, itemName, LunchPayload(child, removed, addons)) == Settled(userInstructions)
  {
    hide CustomerNote, Settled, CleanName, CleanNames, Trim;
    var opening := "Lunch " + itemName + ": " + child;
    var lines := [opening];
    if |removed| > 0 {
      lines := lines + ["No: " + Join(removed, ", ")];
    }
    if |addons| > 0 {
      lines := lines + ["Add: " + Join(addons, ", ")];
    }
    if Trim(userInstructions) != "" {
      lines := lines + [Trim(userInstructions)];
    }
    assert lines == HeaderParts(true, opening, removed, addons) + (if Trim(userInstructions) != "" then [Trim(userInstructions)] else []);
    text := Join(lines, " | ");
    SummaryReads(userInstructions, true, opening, removed, addons);
    hide Summary, Part;
    if CleanName(itemName) && CleanName(child) && CleanNames(removed) && CleanNames(addons) {
      RoundTrip(userInstructions, true, itemName, child, removed, addons);
    }
  }

  // ----- what a note becomes

  /** The note's first paragraph, and the later ones that are not a bundle summary. */
  function Paragraphs(note: string): string {
    var parts := SplitBlank(Trim(note));
    Join([parts[0]] + WithoutSummaries(parts[1..]), "\n\n")
  }

  /** The note after one round through the kitchen summary. */
  function Settled(note: string): string {
    Join(BarParts(Paragraphs(note)), " | ")
  }

  // ----- splitting at bars

  lemma {:induction false} SplitSnoc(s: string, w: char, c: char)
    requires w != c
    ensures var r := Split(s, c);
            Split(s + [w], c) == r[..|r| - 1] + [r[|r| - 1] + [w]]
  {
    if s == [] {
      assert s + [w] == [w] && "" + [w] == [w];
      SplitLacks([w], c);
    } else {
      assert (s + [w])[1..] == s[1..] + [w];
      SplitSnoc(s[1..], w, c);
      var rest := Split(s[1..], c);
      if s[0] != c && |rest| == 1 {
        assert [s[0]] + (rest[0] + [w]) == ([s[0]] + rest[0]) + [w];
      }
    }
  }

  lemma {:induction false} NonemptyConcat(a: seq<string>, b: seq<string>)
    ensures Nonempty(a + b) == Nonempty(a) + Nonempty(b)
  {
    if a == [] {
      assert a + b == b;
    } else {
      assert (a + b)[1..] == a[1..] + b;
      NonemptyConcat(a[1..], b);
    }
  }

  lemma {:induction false} BarConcat(s: string, t: string)
    ensures BarParts(s + "|" + t) == BarParts(s) + BarParts(t)
  {
    SplitConcat(s, t, '|');
    assert TrimAll(Split(s, '|') + Split(t, '|')) == TrimAll(Split(s, '|')) + TrimAll(Split(t, '|'));
    NonemptyConcat(TrimAll(Split(s, '|')), TrimAll(Split(t, '|')));
  }

  lemma {:induction false} BarSingle(s: string)
    requires Lacks(s, '|')
    ensures BarParts(s) == if Trim(s) == "" then [] else [Trim(s)]
  {
    SplitLacks(s, '|');
    assert TrimAll([s]) == [Trim(s)] && [Trim(s)][1..] == [];
    assert Nonempty([Trim(s)]) == (if Trim(s) == "" then [] else [Trim(s)]) + Nonempty([]);
  }

  lemma {:induction false} BarPadStart(w: char, s: string)
    requires IsSpace(w)
    ensures BarParts([w] + s) == BarParts(s)
  {
    var r := Split(s, '|');
    assert ([w] + s)[1..] == s;
    assert Split([w] + s, '|') == [[w] + r[0]] + r[1..];
    TrimPadded([w], r[0], "");
    assert [w] + r[0] + "" == [w] + r[0];
    assert TrimAll([[w] + r[0]] + r[1..]) == TrimAll(r);
  }

  lemma {:induction false} BarPadEnd(s: string, w: char)
    requires IsSpace(w)
    ensures BarParts(s + [w]) == BarParts(s)
  {
    var r := Split(s, '|');
    var n := |r| - 1;
    SplitSnoc(s, w, '|');
    TrimPadded("", r[n], [w]);
    assert "" + r[n] + [w] == r[n] + [w];
    assert TrimAll(r[..n] + [r[n] + [w]]) == TrimAll(r);
  }

  lemma {:induction false} BarTrimStart(s: string)
    ensures BarParts(TrimStart(s)) == BarParts(s)
  {
    if s != [] && IsSpace(s[0]) {
      assert s == [s[0]] + s[1..];
      BarPadStart(s[0], s[1..]);
      BarTrimStart(s[1..]);
    }
  }

  lemma {:induction false} BarTrimEnd(s: string)
    ensures BarParts(TrimEnd(s)) == BarParts(s)
  {
    if s != [] && IsSpace(s[|s| - 1]) {
      assert s == s[..|s| - 1] + [s[|s| - 1]];
      BarPadEnd(s[..|s| - 1], s[|s| - 1]);
      BarTrimEnd(s[..|s| - 1]);
    }
  }

  lemma {:induction false} BarTrim(s: string)
    ensures BarParts(Trim(s)) == BarParts(s)
  {
    BarTrimStart(s);
    BarTrimEnd(TrimStart(s));
  }

  /** Pieces joined with spaced bars fall apart again. */
  lemma {:induction false} BarJoined(s: string, t: string)
    ensures BarParts(s + " | " + t) == BarParts(s) + BarParts(t)
  {
    assert s + " | " + t == (s + [' ']) + "|" + ([' '] + t);
    BarConcat(s + [' '], [' '] + t);
    BarPadEnd(s, ' ');
    BarPadStart(' ', t);
  }

  predicate Piece(s: string) {
    s != "" && Trimmed(s) && Lacks(s, '|')
  }

  lemma {:induction false} BarPartsJoin(ps: seq<string>)
    requires forall i :: 0 <= i < |ps| ==> Piece(ps[i])
    ensures BarParts(Join(ps, " | ")) == ps
  {
    if ps == [] {
      BarSingle("");
    } else {
      BarSingle(ps[0]);
      TrimTrimmed(ps[0]);
      if |ps| > 1 {
        BarPartsJoin(ps[1..]);
        BarJoined(ps[0], Join(ps[1..], " | "));
      }
    }
  }

  lemma {:induction false} SplitPieces(s: string, c: char)
    ensures forall i :: 0 <= i < |Split(s, c)| ==> Lacks(Split(s, c)[i], c)
  {
    if s != [] {
      SplitPieces(s[1..], c);
      var rest := Split(s[1..], c);
      assert s[0] != c ==> Lacks([s[0]] + rest[0], c);
    }
  }

  lemma {:induction false} NonemptyMembers(parts: seq<string>)
    ensures forall p :: p in Nonempty(parts) <==> p in parts && p != ""
  {
    if parts != [] {
      NonemptyMembers(parts[1..]);
    }
  }

  lemma {:induction false} BarPartsPieces(s: string)
    ensures forall i :: 0 <= i < |BarParts(s)| ==> Piece(BarParts(s)[i])
  {
    SplitPieces(s, '|');
    var split := Split(s, '|');
    var trimmed := TrimAll(split);
    NonemptyMembers(trimmed);
    forall i | 0 <= i < |BarParts(s)| ensures Piece(BarParts(s)[i]) {
      assert BarParts(s)[i] in trimmed;
      var k :| 0 <= k < |trimmed| && trimmed[k] == BarParts(s)[i];
      TrimTrimmed(split[k]);
      var a, b := TrimSlice(split[k]);
    }
  }

  /** Splitting a settled text and joining it again gives it back. */
  lemma {:induction false} BarJoinSettles(s: string)
    ensures BarParts(Join(BarParts(s), " | ")) == BarParts(s)
  {
    BarPartsPieces(s);
    BarPartsJoin(BarParts(s));
  }

  // ----- the header

  /** No blank line inside, and no line end at the edge: nothing to split at. */
  predicate OneParagraph(s: string) {
    forall i :: 0 <= i < |s| - 1 ==> !(s[i] == '\n' && s[i + 1] == '\n')
  }

  /** A catalogue name as the summary expects it. */
  predicate CleanName(s: string) {
    Piece(s) && OneParagraph(s)
  }

  lemma {:induction false} GlueClean(a: string, sep: string, b: string)
    requires Trimmed(a) && a != "" && Trimmed(b) && b != "" && OneParagraph(a) && OneParagraph(b)
    requires sep != "" && Lacks(sep, '\n')
    ensures Trimmed(a + sep + b) && OneParagraph(a + sep + b)
    ensures forall c: char :: Lacks(a, c) && Lacks(b, c) && Lacks(sep, c) ==> Lacks(a + sep + b, c)
  {
    var s := a + sep + b;
    forall i | 0 <= i < |s| - 1 ensures !(s[i] == '\n' && s[i + 1] == '\n') {
      if i < |a| - 1 {
        assert s[i] == a[i] && s[i + 1] == a[i + 1];
      } else if i >= |a| + |sep| {
        assert s[i] == b[i - |a| - |sep|] && s[i + 1] == b[i + 1 - |a| - |sep|];
      } else if i < |a| + |sep| - 1 {
        assert s[i + 1] == sep[i + 1 - |a|];
      } else {
        assert s[i] == sep[i - |a|];
      }
    }
  }

  lemma {:induction false} JoinClean(ps: seq<string>, sep: string)
    requires ps != [] && sep != "" && Lacks(sep, '\n')
    requires forall i :: 0 <= i < |ps| ==> ps[i] != "" && Trimmed(ps[i]) && OneParagraph(ps[i])
    ensures Join(ps, sep) != "" && Trimmed(Join(ps, sep)) && OneParagraph(Join(ps, sep))
  {
    if |ps| > 1 {
      JoinClean(ps[1..], sep);
      GlueClean(ps[0], sep, Join(ps[1..], sep));
    }
  }

  predicate CleanNames(names: seq<string>) {
    forall i :: 0 <= i < |names| ==> CleanName(names[i])
  }

  lemma {:induction false} LabelledClean(word: string, names: seq<string>)
    requires word in ["No", "Add", "No:", "Add:"]
    requires names != [] && CleanNames(names)
    ensures CleanName(word + " " + Join(names, ", ")) && Join(names, ", ") != ""
  {
    JoinClean(names, ", ");
    JoinLacks(names, ", ", '|');
    GlueClean(word, " ", Join(names, ", "));
  }

  lemma {:induction false} OpeningClean(web: bool, itemName: string, child: string)
    requires CleanName(child) && (web ==> CleanName(itemName))
    ensures CleanName(Opening(web, itemName, child))
    ensures web ==> !StartsWith(Opening(web, itemName, child), BUNDLE_SUMMARY)
  {
    if web {
      GlueClean("Lunch", " ", itemName);
      GlueClean("Lunch" + " " + itemName, ": ", child);
      var opening := Opening(web, itemName, child);
      assert "Lunch" + " " + itemName + ": " + child == opening;
      assert opening[0] == 'L' && (|opening| >= |BUNDLE_SUMMARY| ==> opening[..|BUNDLE_SUMMARY|][0] == 'L');
    }
  }

  lemma {:induction false} HeaderClean(web: bool, opening: string, removed: seq<string>, added: seq<string>)
    requires CleanName(opening) && CleanNames(removed) && CleanNames(added)
    ensures CleanNames(HeaderParts(web, opening, removed, added))
    ensures removed != [] ==> Join(removed, ", ") != ""
    ensures added != [] ==> Join(added, ", ") != ""
  {
    hide CleanName;
    var no, add := if web then "No:" else "No", if web then "Add:" else "Add";
    if removed != [] { LabelledClean(no, removed); }
    if added != [] { LabelledClean(add, added); }
    assert Removal(web) + Join(removed, ", ") == no + " " + Join(removed, ", ");
    assert Addition(web) + Join(added, ", ") == add + " " + Join(added, ", ");
  }

  // ----- splitting at blank lines

  /** Text in front that no blank line can start in goes to the first paragraph. */
  lemma {:induction false} SplitBlankPrefix(h: string, t: string)
    requires OneParagraph(h) && (h == [] || h[|h| - 1] != '\n')
    ensures SplitBlank(h + t) == [h + SplitBlank(t)[0]] + SplitBlank(t)[1..]
  {
    if h == [] {
      assert h + t == t && h + SplitBlank(t)[0] == SplitBlank(t)[0];
    } else {
      assert (h + t)[1..] == h[1..] + t;
      assert !StartsBlank(h + t) by {
        if |h| > 1 { assert (h + t)[1] == h[1]; }
      }
      assert OneParagraph(h[1..]) by {
        assert forall i :: 0 <= i < |h| - 1 ==> h[1..][i] == h[i + 1];
      }
      SplitBlankPrefix(h[1..], t);
      assert [h[0]] + (h[1..] + SplitBlank(t)[0]) == h + SplitBlank(t)[0];
    }
  }

  lemma {:induction false} SplitBlankOne(s: string)
    requires OneParagraph(s)
    ensures SplitBlank(s) == [s]
  {
    if s != [] {
      assert OneParagraph(s[1..]) by {
        assert forall i :: 0 <= i < |s| - 1 ==> s[1..][i] == s[i + 1];
      }
      SplitBlankOne(s[1..]);
      assert [s[0]] + s[1..] == s && [s][1..] == [];
    }
  }

  lemma {:induction false} JoinFirst(a: string, b: string, rest: seq<string>, sep: string)
    ensures Join([a + b] + rest, sep) == a + Join([b] + rest, sep)
  {
    if rest != [] {
      assert ([a + b] + rest)[1..] == rest && ([b] + rest)[1..] == rest;
    }
  }

  lemma {:induction false} JoinLast(ps: seq<string>, last: string, sep: string)
    requires ps != []
    ensures Join(ps + [last], sep) == Join(ps, sep) + sep + last
  {
    if |ps| > 1 {
      assert (ps + [last])[1..] == ps[1..] + [last];
      JoinLast(ps[1..], last, sep);
    } else {
      assert (ps + [last])[1..] == [last];
    }
  }

  // ----- the round trip

  lemma {:induction false} KeepsFront(a: string, b: string)
    requires a != "" && !IsSpace(a[|a| - 1])
    ensures |TrimEnd(a + b)| >= |a| && TrimEnd(a + b)[..|a|] == a
  {
    TrimEndConcat(a, b);
    TrimEndConcat(a[..|a| - 1], [a[|a| - 1]]);
    assert a[..|a| - 1] + [a[|a| - 1]] == a;
    assert TrimEnd([a[|a| - 1]]) == [a[|a| - 1]];
  }

  /** White space at the end never makes or unmakes a summary. */
  lemma {:induction false} SummaryByStart(part: string)
    ensures IsSummary(part) <==> StartsWith(TrimStart(part), BUNDLE_SUMMARY)
  {
    var u := TrimStart(part);
    TrimEndLast(u);
    if StartsWith(u, BUNDLE_SUMMARY) {
      assert u == BUNDLE_SUMMARY + u[|BUNDLE_SUMMARY|..];
      KeepsFront(BUNDLE_SUMMARY, u[|BUNDLE_SUMMARY|..]);
    }
  }

  /** A spaced bar or a line end is no part of the summary's opening words. */
  lemma {:induction false} SummaryBeforeBreak(a: string, tail: string)
    requires tail == "" || StartsWith(tail, " | ") || tail[0] == '\n'
    ensures StartsWith(a + tail, BUNDLE_SUMMARY) <==> StartsWith(a, BUNDLE_SUMMARY)
  {
    var x, n := a + tail, |BUNDLE_SUMMARY|;
    assert Lacks(BUNDLE_SUMMARY, '|') && Lacks(BUNDLE_SUMMARY, '\n') && BUNDLE_SUMMARY[n - 1] == 'p';
    if |a| < n && |x| >= n {
      assert x[|a|] == tail[0];
      assert |a| + 1 < n ==> x[|a| + 1] == tail[1];
      assert x[..n][|a|] == x[|a|];
      assert |a| + 1 < n ==> x[..n][|a| + 1] == x[|a| + 1];
      assert StartsWith(tail, " | ") ==> tail[..3][0] == ' ' && tail[..3][1] == '|';
    } else if |a| >= n {
      assert x[..n] == a[..n];
    }
  }

  lemma {:induction false} TrimStartOfTrimmed(s: string, t: string)
    requires Trimmed(s) && s != ""
    ensures TrimStart(s + t) == s + t
  {
  }

  /** The parser throws the header away exactly when it opens like the bundle summary. */
  lemma {:induction false} HeaderIsSummary(opening: string, tail: string)
    requires CleanName(opening) && (tail == "" || StartsWith(tail, " | "))
    ensures IsSummary(opening + tail) <==> StartsWith(opening, BUNDLE_SUMMARY)
  {
    TrimStartOfTrimmed(opening, tail);
    SummaryByStart(opening + tail);
    SummaryBeforeBreak(opening, tail);
  }

  lemma {:induction false} JoinTail(ps: seq<string>, sep: string)
    requires ps != []
    ensures Join(ps, sep) == ps[0] + (if |ps| == 1 then "" else sep + Join(ps[1..], sep))
  {
  }

  /** The text splits into the header with the note's first paragraph, and the others. */
  lemma {:induction false} SummarySplit(note: string, web: bool, opening: string, removed: seq<string>, added: seq<string>)
    requires CleanName(opening) && CleanNames(removed) && CleanNames(added)
    ensures var header, parts := Join(HeaderParts(web, opening, removed, added), " | "), SplitBlank(Trim(note));
            var head := if Trim(note) == "" then header else header + " | " + parts[0];
            && SplitBlank(Summary(note, web, opening, removed, added)) == [head] + parts[1..]
            && (IsSummary(head) <==> StartsWith(opening, BUNDLE_SUMMARY))
  {
    var hs, t := HeaderParts(web, opening, removed, added), Trim(note);
    var header := Join(hs, " | ");
    HeaderClean(web, opening, removed, added);
    JoinClean(hs, " | ");
    assert hs != [] && hs[0] == opening;
    hide IsSummary, HeaderParts, CleanNames, SplitBlank, OneParagraph, Trim;
    if t == "" {
      assert hs + [] == hs;
      SplitBlankOne(header);
      SplitBlankOne("");
      HeaderOpens(hs, "");
      assert header + "" == header;
    } else {
      JoinLast(hs, t, " | ");
      OneParagraphBar(header);
      SplitBlankPrefix(header + " | ", t);
      HeaderOpens(hs, " | " + SplitBlank(t)[0]);
      assert header + " | " + SplitBlank(t)[0] == header + (" | " + SplitBlank(t)[0]);
    }
  }

  /** A joined header, with or without more after it, opens with its first part. */
  lemma {:induction false} HeaderOpens(hs: seq<string>, more: string)
    requires hs != [] && CleanName(hs[0]) && (more == "" || StartsWith(more, " | "))
    ensures IsSummary(Join(hs, " | ") + more) <==> StartsWith(hs[0], BUNDLE_SUMMARY)
  {
    hide IsSummary, CleanName;
    JoinTail(hs, " | ");
    var tail := if |hs| == 1 then "" else " | " + Join(hs[1..], " | ");
    var rest := tail + more;
    assert Join(hs, " | ") + more == hs[0] + rest;
    assert rest == "" || rest[..3] == " | ";
    HeaderIsSummary(hs[0], rest);
  }

  lemma {:induction false} OneParagraphBar(s: string)
    requires OneParagraph(s)
    ensures OneParagraph(s + " | ")
  {
    var t := s + " | ";
    forall i | 0 <= i < |t| - 1 ensures !(t[i] == '\n' && t[i + 1] == '\n') {
      assert i >= |s| - 1 ==> t[i + 1] != '\n';
    }
  }

  /** Editing a lunch line brings back the customer's note. For every note and either kind of
      summary: what was printed is parsed to the settled note, whatever bars, blank lines or
      label-like words the note holds. */
  lemma {:induction false} RoundTrip(note: string, web: bool, itemName: string, child: string, removed: seq<string>, added: seq<string>)
    requires CleanName(child) && CleanNames(removed) && CleanNames(added) && (web ==> CleanName(itemName))
    requires !web ==> !StartsWith(child, BUNDLE_SUMMARY)
    ensures CustomerNote(Summary(note, web, Opening(web, itemName, child), removed, added), itemName,
                         LunchPayload(child, removed, added)) == Settled(note)
  {
    OpeningClean(web, itemName, child);
    CleanedParts(note, web, Opening(web, itemName, child), removed, added);
    HeaderTaken(web, child, removed, added, BarParts(Paragraphs(note)), itemName);
    hide Cleaned, Paragraphs, BarParts, HeaderParts;
  }

  lemma {:induction false} CleanedParts(note: string, web: bool, opening: string, removed: seq<string>, added: seq<string>)
    requires CleanName(opening) && CleanNames(removed) && CleanNames(added)
    requires !StartsWith(opening, BUNDLE_SUMMARY)
    ensures BarParts(Cleaned(Summary(note, web, opening, removed, added)))
            == HeaderParts(web, opening, removed, added) + BarParts(Paragraphs(note))
  {
    hide IsSummary, BarParts;
    var hs, t := HeaderParts(web, opening, removed, added), Trim(note);
    var header, parts := Join(hs, " | "), SplitBlank(t);
    SummarySplit(note, web, opening, removed, added);
    HeaderClean(web, opening, removed, added);
    BarPartsJoin(hs);
    var kept := WithoutSummaries(parts[1..]);
    var head := if t == "" then header else header + " | " + parts[0];
    assert ([head] + parts[1..])[1..] == parts[1..];
    assert WithoutSummaries([head] + parts[1..]) == [head] + kept;
    BarTrim(Join([head] + kept, "\n\n"));
    if t == "" {
      SplitBlankOne("");
      assert kept == [] && [head] + kept == [head];
      BarSingle("");
      TrimTrimmed("");
      assert [parts[0]] + kept == [""];
      assert Paragraphs(note) == "";
      assert BarParts(Cleaned(Summary(note, web, opening, removed, added))) == hs + [];
    } else {
      JoinFirst(header + " | ", parts[0], kept, "\n\n");
      BarJoined(header, Paragraphs(note));
    }
  }

  /** The parser recognises exactly the header that was printed. */
  lemma {:induction false} HeaderTaken(web: bool, child: string, removed: seq<string>, added: seq<string>, rest: seq<string>, itemName: string)
    requires CleanName(child) && CleanNames(removed) && CleanNames(added)
    ensures var parts := HeaderParts(web, Opening(web, itemName, child), removed, added) + rest;
            && (First(parts, Opening(true, itemName, child)) <==> web) && (!web ==> First(parts, child))
            && WithoutHeader(parts, web, Join(removed, ", "), Join(added, ", ")) == rest
  {
    HeaderClean(web, child, removed, added);
    HeaderStripped(web, Opening(web, itemName, child), removed, added, rest);
    hide CleanName, CleanNames, WithoutHeader, Join;
    assert |Opening(true, itemName, child)| > |child|;
    var parts := HeaderParts(web, Opening(web, itemName, child), removed, added) + rest;
    assert parts[0] == Opening(web, itemName, child);
  }

  lemma {:induction false} HeaderStripped(web: bool, opening: string, removed: seq<string>, added: seq<string>, rest: seq<string>)
    requires removed != [] ==> Join(removed, ", ") != ""
    requires added != [] ==> Join(added, ", ") != ""
    ensures WithoutHeader(HeaderParts(web, opening, removed, added) + rest, web, Join(removed, ", "), Join(added, ", ")) == rest
  {
    assert removed == [] ==> Join(removed, ", ") == "";
    assert added == [] ==> Join(added, ", ") == "";
    hide Join, Removal, Addition;
    var parts := HeaderParts(web, opening, removed, added) + rest;
    var no := if removed != [] then [Removal(web) + Join(removed, ", ")] else [];
    var add := if added != [] then [Addition(web) + Join(added, ", ")] else [];
    assert parts == [opening] + (no + (add + rest));
    assert Shifted(parts) == no + (add + rest);
    assert removed != [] ==> Shifted(no + (add + rest)) == add + rest;
    assert removed == [] ==> no + (add + rest) == add + rest;
    assert added != [] ==> Shifted(add + rest) == rest;
    assert added == [] ==> add + rest == rest;
  }

  // ----- what the customer sees again

  /** A note on one paragraph comes back with its bars evened out. */
  lemma {:induction false} OneParagraphNote(note: string)
    requires OneParagraph(Trim(note))
    ensures Settled(note) == Join(BarParts(note), " | ")
  {
    SplitBlankOne(Trim(note));
    assert WithoutSummaries([Trim(note)][1..]) == [];
    assert [Trim(note)] + [] == [Trim(note)];
    BarTrim(note);
  }

  /** A trimmed note without bars and blank lines comes back as it was. */
  lemma {:induction false} PlainNoteReturned(note: string)
    requires Trimmed(note) && Lacks(note, '|') && OneParagraph(note)
    ensures Settled(note) == note
  {
    TrimTrimmed(note);
    OneParagraphNote(note);
    BarSingle(note);
  }

  /** Of an item that is no lunch special the text of one paragraph comes back trimmed, but for the
      summary of a side bundle, which is the restaurant's own and is dropped. */
  lemma {:induction false} OtherNoteTrimmed(text: string, itemName: string, payload: Option<Payload>)
    requires OneParagraph(text) && (payload.None? || payload.value.builderType != "LUNCH_SPECIAL")
    ensures CustomerNote(text, itemName, payload) == if "Add-on: Small fries + pop" <= Trim(text) then "" else Trim(text)
  {
    SplitBlankOne(text);
    assert WithoutSummaries([text]) == if IsSummary(text) then [] else [text] by { assert [text][1..] == []; }
    assert Trim("") == "";
    hide Trim;
  }

  /** The later paragraphs as the parser sees them where the first one is lost. */
  function Later(note: string): string {
    Trim(Join(WithoutSummaries(SplitBlank(Trim(note))[1..]), "\n\n"))
  }

  /** A lunch item whose name opens like the bundle summary: for every note, the parser sees nothing
      but the later paragraphs. */
  lemma {:induction false} SummaryNameLosesFirst(note: string, itemName: string, child: string, removed: seq<string>, added: seq<string>)
    requires CleanName(child) && CleanNames(removed) && CleanNames(added) && StartsWith(child, BUNDLE_SUMMARY)
    ensures CustomerNote(Summary(note, false, child, removed, added), itemName, LunchPayload(child, removed, added))
         == Parsed(Later(note), itemName, LunchPayload(child, removed, added))
  {
    hide IsSummary, Parsed, SplitBlank, Summary;
    SummarySplit(note, false, child, removed, added);
    var header, parts := Join(HeaderParts(false, child, removed, added), " | "), SplitBlank(Trim(note));
    var head := if Trim(note) == "" then header else header + " | " + parts[0];
    assert ([head] + parts[1..])[1..] == parts[1..];
    assert WithoutSummaries([head] + parts[1..]) == WithoutSummaries(parts[1..]);
  }

  /** The number of characters that are neither white space nor bars. */
  function Weight(s: string): nat {
    if s == [] then 0 else (if IsSpace(s[0]) || s[0] == '|' then 0 else 1) + Weight(s[1..])
  }

  function TotalWeight(parts: seq<string>): nat {
    if parts == [] then 0 else Weight(parts[0]) + TotalWeight(parts[1..])
  }

  lemma {:induction false} WeightConcat(s: string, t: string)
    ensures Weight(s + t) == Weight(s) + Weight(t)
  {
    if s == [] {
      assert s + t == t;
    } else {
      assert (s + t)[1..] == s[1..] + t;
      WeightConcat(s[1..], t);
    }
  }

  lemma {:induction false} WeightTrimStart(s: string)
    ensures Weight(TrimStart(s)) == Weight(s)
  {
    if s != [] && IsSpace(s[0]) {
      WeightTrimStart(s[1..]);
    }
  }

  lemma {:induction false} WeightTrimEnd(s: string)
    ensures Weight(TrimEnd(s)) == Weight(s)
  {
    if s != [] && IsSpace(s[|s| - 1]) {
      var n := |s| - 1;
      WeightTrimEnd(s[..n]);
      WeightConcat(s[..n], [s[n]]);
      assert s == s[..n] + [s[n]];
      assert [s[n]][1..] == [];
    }
  }

  lemma {:induction false} WeightTrim(s: string)
    ensures Weight(Trim(s)) == Weight(s)
  {
    WeightTrimStart(s);
    WeightTrimEnd(TrimStart(s));
  }

  lemma {:induction false} WeightSplit(s: string)
    ensures TotalWeight(Split(s, '|')) == Weight(s)
  {
    if s != [] {
      WeightSplit(s[1..]);
      var rest := Split(s[1..], '|');
      if s[0] == '|' {
        assert ([""] + rest)[1..] == rest;
      } else {
        assert ([[s[0]] + rest[0]] + rest[1..])[1..] == rest[1..];
        assert ([s[0]] + rest[0])[1..] == rest[0];
      }
    }
  }

  lemma {:induction false} WeightPieces(parts: seq<string>)
    ensures TotalWeight(Nonempty(TrimAll(parts))) == TotalWeight(parts)
  {
    if parts != [] {
      WeightPieces(parts[1..]);
      WeightTrim(parts[0]);
      assert TrimAll(parts) == [Trim(parts[0])] + TrimAll(parts[1..]);
      var rest := Nonempty(TrimAll(parts[1..]));
      assert TrimAll(parts)[1..] == TrimAll(parts[1..]);
      if Trim(parts[0]) != "" {
        assert ([Trim(parts[0])] + rest)[1..] == rest;
      } else {
        assert [] + rest == rest;
      }
    }
  }

  lemma {:induction false} WeightJoin(parts: seq<string>, sep: string)
    requires Weight(sep) == 0
    ensures Weight(Join(parts, sep)) == TotalWeight(parts)
  {
    if |parts| > 1 {
      WeightJoin(parts[1..], sep);
      WeightConcat(parts[0] + sep, Join(parts[1..], sep));
      WeightConcat(parts[0], sep);
    }
  }

  /** Evening out the bars loses nothing. */
  lemma {:induction false} WeightBars(s: string)
    ensures TotalWeight(BarParts(s)) == Weight(s)
    ensures Weight(Join(BarParts(s), " | ")) == Weight(s)
  {
    WeightSplit(s);
    WeightPieces(Split(s, '|'));
    SeparatorsWeightless();
    WeightJoin(BarParts(s), " | ");
  }

  lemma {:induction false} SeparatorsWeightless()
    ensures Weight(" | ") == 0 && Weight("\n\n") == 0
  {
    assert " | "[1..] == "| " && "| "[1..] == " " && " "[1..] == "";
    assert "\n\n"[1..] == "\n" && "\n"[1..] == "";
  }

  lemma {:induction false} PieceWeighs(s: string)
    requires Piece(s)
    ensures Weight(s) > 0
  {
  }

  lemma {:induction false} NoPartsNoWeight(s: string)
    ensures BarParts(s) == [] <==> Weight(s) == 0
  {
    WeightBars(s);
    BarPartsPieces(s);
    hide BarParts;
    if BarParts(s) != [] { PieceWeighs(BarParts(s)[0]); }
  }

  lemma {:induction false} WeightlessFront(a: string, b: string)
    requires Weight(a) == 0
    ensures BarParts(a + b) == BarParts(b)
  {
    hide BarParts;
    if a == [] {
      assert a + b == b;
    } else {
      assert a + b == [a[0]] + (a[1..] + b);
      WeightlessFront(a[1..], b);
      if a[0] == '|' {
        BarConcat("", a[1..] + b);
        BarSingle("");
        TrimTrimmed("");
        assert "" + "|" + (a[1..] + b) == [a[0]] + (a[1..] + b);
        assert [] + BarParts(a[1..] + b) == BarParts(a[1..] + b);
      } else {
        BarPadStart(a[0], a[1..] + b);
      }
    }
  }

  lemma {:induction false} TailWeight(parts: seq<string>, k: nat)
    requires k <= |parts|
    ensures TotalWeight(parts[k..]) <= TotalWeight(parts)
  {
    if k > 0 {
      TailWeight(parts[1..], k - 1);
      assert parts[1..][k - 1..] == parts[k..];
    } else {
      assert parts[0..] == parts;
    }
  }

  /** Taking a header off loses something. */
  lemma {:induction false} HeaderWeighs(s: string, web: bool, removed: string, added: string)
    requires BarParts(s) != []
    ensures Weight(Join(WithoutHeader(BarParts(s), web, removed, added), " | ")) < Weight(s)
  {
    WeightBars(s);
    BarPartsPieces(s);
    SeparatorsWeightless();
    var parts := BarParts(s);
    var rest := WithoutHeader(parts, web, removed, added);
    var k := |parts| - |rest|;
    hide BarParts, Removal, Addition;
    assert 1 <= k <= 3 && rest == parts[k..];
    PieceWeighs(parts[0]);
    TailWeight(parts[1..], k - 1);
    assert parts[1..][k - 1..] == rest;
    WeightJoin(rest, " | ");
  }

  /** Nothing but bars stands in the first paragraph, and the later ones are settled and do not open
      like a summary of the item. */
  predicate OnlyLater(note: string, itemName: string, child: string) {
    var parts := BarParts(Later(note));
    && BarParts(SplitBlank(Trim(note))[0]) == []
    && Later(note) == Join(parts, " | ")
    && !First(parts, child) && !First(parts, Opening(true, itemName, child))
  }

  lemma {:induction false} NoteWeight(note: string)
    ensures Weight(Settled(note)) == Weight(SplitBlank(Trim(note))[0]) + Weight(Later(note))
    ensures Weight(SplitBlank(Trim(note))[0]) == 0 ==> Settled(note) == Join(BarParts(Later(note)), " | ")
  {
    var parts := SplitBlank(Trim(note));
    var kept := WithoutSummaries(parts[1..]);
    var k := Join(kept, "\n\n");
    var gap := if kept == [] then "" else "\n\n";
    hide BarParts, SplitBlank, Trim, IsSummary, WithoutSummaries;
    WeightBars(Paragraphs(note));
    SeparatorsWeightless();
    assert ([parts[0]] + kept)[1..] == kept;
    assert Paragraphs(note) == parts[0] + gap + k;
    WeightConcat(parts[0] + gap, k);
    WeightConcat(parts[0], gap);
    WeightTrim(k);
    BarTrim(k);
    if Weight(parts[0]) == 0 {
      WeightlessFront(parts[0] + gap, k);
    }
  }

  /** What the parser makes of the later paragraphs is the settled note in exactly one case. */
  lemma {:induction false} LaterSuffices(note: string, itemName: string, child: string, removed: seq<string>, added: seq<string>)
    ensures Parsed(Later(note), itemName, LunchPayload(child, removed, added)) == Settled(note)
       <==> OnlyLater(note, itemName, child)
  {
    var later := Later(note);
    var parts := BarParts(later);
    var web := First(parts, Opening(true, itemName, child));
    NoteWeight(note);
    NoPartsNoWeight(SplitBlank(Trim(note))[0]);
    hide Later, BarParts, Settled, SplitBlank, Trim, Join, WithoutHeader, Opening;
    if web || First(parts, child) {
      HeaderWeighs(later, web, Join(removed, ", "), Join(added, ", "));
    }
  }

  /** Exactly when a note survives: unless the lunch item's name opens like the bundle summary, which
      loses the first paragraph. */
  lemma {:induction false} RoundTripExact(note: string, itemName: string, child: string, removed: seq<string>, added: seq<string>)
    requires CleanName(child) && CleanNames(removed) && CleanNames(added)
    ensures CustomerNote(Summary(note, false, child, removed, added), itemName, LunchPayload(child, removed, added)) == Settled(note)
            <==> !StartsWith(child, BUNDLE_SUMMARY) || OnlyLater(note, itemName, child)
  {
    hide Settled, OnlyLater, CustomerNote, Summary, Parsed;
    if !StartsWith(child, BUNDLE_SUMMARY) {
      RoundTrip(note, false, itemName, child, removed, added);
    } else {
      SummaryNameLosesFirst(note, itemName, child, removed, added);
      LaterSuffices(note, itemName, child, removed, added);
    }
  }

  // ----- settled notes stay settled

  predicate SoundAfter(u: string) {
    (u != [] ==> u[0] != '\n') && !StartsWith(TrimStart(u), BUNDLE_SUMMARY)
  }

  /** Blank lines are exactly one line wide, and no summary follows one. */
  ghost predicate Sound(s: string) {
    forall i :: 0 <= i < |s| - 1 && s[i] == '\n' && s[i + 1] == '\n' ==> SoundAfter(s[i + 2..])
  }

  lemma {:induction false} LongerStartsWith(u: string, v: string, p: string)
    ensures StartsWith(u, p) ==> StartsWith(u + v, p)
  {
    assert |p| <= |u| ==> (u + v)[..|p|] == u[..|p|];
  }

  lemma {:induction false} LongerStart(u: string, v: string)
    requires SoundAfter(u + v)
    ensures SoundAfter(u)
  {
    TrimStartConcat(u, v);
    TrimStartEmpty(u);
    LongerStartsWith(TrimStart(u), v, BUNDLE_SUMMARY);
    assert u != [] ==> (u + v)[0] == u[0];
  }

  lemma {:induction false} SoundSlice(s: string, a: nat, b: nat)
    requires Sound(s) && a <= b <= |s|
    ensures Sound(s[a..b])
  {
    var t := s[a..b];
    forall i | 0 <= i < |t| - 1 && t[i] == '\n' && t[i + 1] == '\n' ensures SoundAfter(t[i + 2..]) {
      assert s[a + i] == '\n' && s[a + i + 1] == '\n';
      assert s[a + i + 2..] == t[i + 2..] + s[b..];
      LongerStart(t[i + 2..], s[b..]);
    }
  }

  lemma {:induction false} SoundAfterBar(u: string, v: string)
    requires SoundAfter(u) && !AllSpace(u) && StartsWith(v, " | ")
    ensures SoundAfter(u + v)
  {
    TrimStartConcat(u, v);
    SummaryBeforeBreak(TrimStart(u), v);
  }

  lemma {:induction false} SoundBarred(p: string, r: string)
    requires Piece(p) && Sound(p) && Sound(r)
    ensures Sound(p + " | " + r)
  {
    var s := p + " | " + r;
    assert s[|p| - 1] == p[|p| - 1] && p[|p| - 1] != '\n';
    assert s[|p|] == ' ' && s[|p| + 1] == '|' && s[|p| + 2] == ' ';
    forall i | 0 <= i < |s| - 1 && s[i] == '\n' && s[i + 1] == '\n' ensures SoundAfter(s[i + 2..]) {
      if i + 1 < |p| {
        assert p[i] == '\n' && p[i + 1] == '\n' && i + 2 < |p|;
        assert s[i + 2..] == p[i + 2..] + (" | " + r);
        assert p[i + 2..][|p| - i - 3] == p[|p| - 1];
        assert (" | " + r)[..3] == " | ";
        SoundAfterBar(p[i + 2..], " | " + r);
      } else {
        var k := i - |p| - 3;
        assert k >= 0 && r[k] == '\n' && r[k + 1] == '\n';
        assert s[i + 2..] == r[k + 2..];
      }
    }
  }

  lemma {:induction false} SoundJoin(ps: seq<string>)
    requires forall i :: 0 <= i < |ps| ==> Piece(ps[i]) && Sound(ps[i])
    ensures Sound(Join(ps, " | ")) && Trimmed(Join(ps, " | "))
  {
    if |ps| > 1 {
      SoundJoin(ps[1..]);
      SoundBarred(ps[0], Join(ps[1..], " | "));
      JoinNonempty(ps[1..]);
    }
  }

  lemma {:induction false} JoinNonempty(ps: seq<string>)
    requires ps != [] && ps[0] != ""
    ensures Join(ps, " | ") != ""
  {
  }

  lemma {:induction false} PieceIsSlice(s: string, c: char, k: nat) returns (a: nat, b: nat)
    requires k < |Split(s, c)|
    ensures a <= b <= |s| && Split(s, c)[k] == s[a..b] && (k == 0 ==> a == 0)
  {
    if s == [] {
      a, b := 0, 0;
    } else if s[0] == c {
      if k == 0 {
        a, b := 0, 0;
      } else {
        a, b := PieceIsSlice(s[1..], c, k - 1);
        assert s[1..][a..b] == s[a + 1..b + 1];
        a, b := a + 1, b + 1;
      }
    } else {
      a, b := PieceIsSlice(s[1..], c, k);
      assert s[1..][a..b] == s[a + 1..b + 1];
      if k == 0 {
        b := b + 1;
        assert [s[0]] + s[1..b] == s[..b];
      } else {
        a, b := a + 1, b + 1;
      }
    }
  }

  /** Evening out the bars of a sound text keeps it sound. */
  lemma {:induction false} SoundBars(s: string)
    requires Sound(s)
    ensures Sound(Join(BarParts(s), " | ")) && Trimmed(Join(BarParts(s), " | "))
  {
    hide Sound, Piece;
    var split, parts := Split(s, '|'), BarParts(s);
    var trimmed := TrimAll(split);
    NonemptyMembers(trimmed);
    BarPartsPieces(s);
    forall i | 0 <= i < |parts| ensures Sound(parts[i]) {
      assert parts[i] in parts && parts[i] in trimmed;
      var k :| 0 <= k < |trimmed| && trimmed[k] == parts[i];
      var a, b := PieceIsSlice(s, '|', k);
      var c, d := TrimSlice(split[k]);
      SoundSlice(s, a, b);
      SoundSlice(split[k], c, d);
    }
    SoundJoin(parts);
  }

  lemma {:induction false} SplitBlankHead(s: string)
    ensures var p := SplitBlank(s)[0]; |p| <= |s| && p == s[..|p|]
    ensures |SplitBlank(s)| == 1 ==> SplitBlank(s)[0] == s
    decreases |s|
  {
    if s != [] && !StartsBlank(s) {
      SplitBlankHead(s[1..]);
    }
  }

  /** A sound text is its own paragraphs. */
  lemma {:induction false} SoundKept(s: string)
    requires Sound(s)
    ensures Join(SplitBlank(s), "\n\n") == s
    ensures forall i :: 1 <= i < |SplitBlank(s)| ==> !IsSummary(SplitBlank(s)[i])
    decreases |s|
  {
    hide IsSummary;
    if s == [] {
    } else if StartsBlank(s) {
      assert SoundAfter(s[2..]);
      assert DropNewlines(s[2..]) == s[2..];
      SoundSlice(s, 2, |s|);
      assert s[2..|s|] == s[2..];
      SoundKept(s[2..]);
      var rest := SplitBlank(s[2..]);
      assert ([""] + rest)[1..] == rest;
      assert s == "" + "\n\n" + s[2..];
      SplitBlankHead(s[2..]);
      assert s[2..] == rest[0] + s[2..][|rest[0]|..];
      LongerStart(rest[0], s[2..][|rest[0]|..]);
      SummaryByStart(rest[0]);
    } else {
      SoundSlice(s, 1, |s|);
      assert s[1..|s|] == s[1..];
      SoundKept(s[1..]);
      var rest := SplitBlank(s[1..]);
      JoinFirst([s[0]], rest[0], rest[1..], "\n\n");
      assert [rest[0]] + rest[1..] == rest;
      assert [s[0]] + s[1..] == s;
    }
  }

  lemma {:induction false} NoSummaries(parts: seq<string>)
    requires forall i :: 0 <= i < |parts| ==> !IsSummary(parts[i])
    ensures WithoutSummaries(parts) == parts
  {
    hide IsSummary;
    if parts != [] {
      NoSummaries(parts[1..]);
    }
  }

  lemma {:induction false} SoundParagraphs(m: string)
    requires Sound(m) && Trimmed(m)
    ensures Paragraphs(m) == m
  {
    hide IsSummary, Sound;
    TrimTrimmed(m);
    SoundKept(m);
    var parts := SplitBlank(m);
    NoSummaries(parts[1..]);
    assert [parts[0]] + parts[1..] == parts;
  }

  // ----- the paragraphs kept from a note are sound

  /** Later paragraphs: none opens with a line end, and only the last may end with one or be empty. */
  predicate GoodTail(ps: seq<string>) {
    ps == [] ||
    (&& OneParagraph(ps[0])
     && (ps[0] != "" ==> ps[0][0] != '\n')
     && (|ps| > 1 ==> ps[0] != "" && ps[0][|ps[0]| - 1] != '\n')
     && GoodTail(ps[1..]))
  }

  predicate GoodHead(p: string, more: bool) {
    OneParagraph(p) && (more && p != "" ==> p[|p| - 1] != '\n')
  }

  lemma {:induction false} DroppedNewlines(s: string)
    ensures var d := DropNewlines(s); d != "" ==> d[0] != '\n'
  {
    if s != [] && s[0] == '\n' {
      DroppedNewlines(s[1..]);
    }
  }

  lemma {:induction false} SplitBlankGood(s: string)
    ensures var ps := SplitBlank(s);
            GoodHead(ps[0], |ps| > 1) && GoodTail(ps[1..])
    decreases |s|
  {
    if s == [] {
    } else if StartsBlank(s) {
      var d := DropNewlines(s[2..]);
      DroppedNewlines(s[2..]);
      SplitBlankGood(d);
      SplitBlankHead(d);
      var rest := SplitBlank(d);
      assert ([""] + rest)[1..] == rest;
      assert rest[0] != "" ==> rest[0][0] == d[0];
      assert |rest| > 1 && rest[0] == "" ==> StartsBlank(d);
      assert !StartsBlank(d);
      HeadOfTail(rest);
      hide SplitBlank, GoodTail, OneParagraph;
    } else {
      SplitBlankGood(s[1..]);
      SplitBlankHead(s[1..]);
      var rest := SplitBlank(s[1..]);
      assert rest[0] != "" ==> rest[0][0] == s[1];
      assert |rest| > 1 && rest[0] == "" ==> StartsBlank(s[1..]);
      hide SplitBlank, GoodTail, GoodHead;
      PrependedGood(s[0], rest);
    }
  }

  lemma {:induction false} HeadOfTail(rest: seq<string>)
    requires rest != [] && GoodHead(rest[0], |rest| > 1) && GoodTail(rest[1..])
    requires rest[0] != "" ==> rest[0][0] != '\n'
    requires |rest| > 1 ==> rest[0] != ""
    ensures GoodTail(rest)
  {
    hide OneParagraph;
  }

  lemma {:induction false} PrependedGood(c: char, rest: seq<string>)
    requires rest != [] && GoodHead(rest[0], |rest| > 1)
    requires !(rest[0] != "" && c == '\n' && rest[0][0] == '\n')
    requires |rest| > 1 && rest[0] == "" ==> c != '\n'
    ensures var ps := [[c] + rest[0]] + rest[1..]; GoodHead(ps[0], |ps| > 1) && ps[1..] == rest[1..]
  {
    PrependParagraph(c, rest[0]);
    hide OneParagraph;
  }

  lemma {:induction false} PrependParagraph(c: char, p: string)
    requires OneParagraph(p) && !(p != "" && c == '\n' && p[0] == '\n')
    ensures OneParagraph([c] + p)
  {
    var q := [c] + p;
    forall i | 0 <= i < |q| - 1 ensures !(q[i] == '\n' && q[i + 1] == '\n') {
      assert i > 0 ==> q[i] == p[i - 1] && q[i + 1] == p[i];
    }
  }

  lemma {:induction false} GoodTailFiltered(ps: seq<string>)
    requires GoodTail(ps)
    ensures GoodTail(WithoutSummaries(ps))
    ensures forall i :: 0 <= i < |WithoutSummaries(ps)| ==> !IsSummary(WithoutSummaries(ps)[i])
    ensures |ps| <= 1 ==> |WithoutSummaries(ps)| <= |ps|
  {
    hide IsSummary;
    if ps != [] {
      GoodTailFiltered(ps[1..]);
      var rest := WithoutSummaries(ps[1..]);
      if !IsSummary(ps[0]) {
        assert ([ps[0]] + rest)[1..] == rest;
        assert rest != [] ==> |ps| > 1;
      } else {
        assert WithoutSummaries(ps) == rest;
      }
    }
  }

  lemma {:induction false} TailSoundAfter(ps: seq<string>)
    requires GoodTail(ps) && forall i :: 0 <= i < |ps| ==> !IsSummary(ps[i])
    ensures SoundAfter(Join(ps, "\n\n"))
  {
    hide IsSummary;
    if ps == [] {
    } else if |ps| == 1 {
      SummaryByStart(ps[0]);
    } else {
      TailSoundAfter(ps[1..]);
      SummaryByStart(ps[0]);
      var r := Join(ps[1..], "\n\n");
      assert Join(ps, "\n\n") == ps[0] + ("\n\n" + r);
      TrimStartConcat(ps[0], "\n\n" + r);
      TrimStartConcat("\n\n", r);
      SummaryBeforeBreak(TrimStart(ps[0]), "\n\n" + r);
    }
  }

  lemma {:induction false} JoinSound(p: string, ps: seq<string>)
    requires GoodHead(p, ps != []) && GoodTail(ps) && forall i :: 0 <= i < |ps| ==> !IsSummary(ps[i])
    ensures Sound(Join([p] + ps, "\n\n"))
    decreases |ps|
  {
    hide IsSummary;
    assert ([p] + ps)[1..] == ps;
    if ps != [] {
      var r := Join(ps, "\n\n");
      TailSoundAfter(ps);
      assert [ps[0]] + ps[1..] == ps;
      JoinSound(ps[0], ps[1..]);
      var s := p + "\n\n" + r;
      assert r != "" ==> r[0] != '\n';
      assert forall i :: 0 <= i < |p| ==> s[i] == p[i];
      assert forall i :: |p| + 2 <= i < |s| ==> s[i] == r[i - |p| - 2];
      assert forall i :: 0 <= i < |p| - 1 ==> !(s[i] == '\n' && s[i + 1] == '\n');
      assert p != "" ==> s[|p| - 1] != '\n';
      assert r != "" ==> s[|p| + 2] != '\n';
      forall i | 0 <= i < |s| - 1 && s[i] == '\n' && s[i + 1] == '\n' ensures SoundAfter(s[i + 2..]) {
        assert i == |p| || i >= |p| + 2;
        assert s[i + 2..] == if i == |p| then r else r[i - |p|..];
      }
    }
  }

  lemma {:induction false} ParagraphsSound(note: string)
    ensures Sound(Paragraphs(note))
  {
    hide IsSummary, Sound;
    var parts := SplitBlank(Trim(note));
    SplitBlankGood(Trim(note));
    GoodTailFiltered(parts[1..]);
    var kept := WithoutSummaries(parts[1..]);
    if parts[1..] == [] { assert kept == []; }
    JoinSound(parts[0], kept);
  }

  /** One round settles a note for good: further rounds change nothing. */
  lemma {:induction false} SettledIdempotent(note: string)
    ensures Settled(Settled(note)) == Settled(note)
  {
    hide Sound, Paragraphs;
    ParagraphsSound(note);
    SoundBars(Paragraphs(note));
    SoundParagraphs(Settled(note));
    BarJoinSettles(Paragraphs(note));
  }

  // ----- edit and save, any number of times

  /** One time the line is opened, perhaps changed to another lunch item, and saved, on the web
      or in the application. */
  datatype Edit = Edit(web: bool, itemName: string, child: string, removed: seq<string>, added: seq<string>)

  predicate CleanEdit(e: Edit) {
    && CleanName(e.child) && CleanNames(e.removed) && CleanNames(e.added)
    && (if e.web then CleanName(e.itemName) else !StartsWith(e.child, BUNDLE_SUMMARY))
  }

  /** The note shown in the editor after the last of the edits was saved and reopened. */
  function Edited(note: string, edits: seq<Edit>): string {
    if edits == [] then note
    else
      var e := edits[|edits| - 1];
      CustomerNote(Summary(Edited(note, edits[..|edits| - 1]), e.web, Opening(e.web, e.itemName, e.child), e.removed, e.added),
                   e.itemName, LunchPayload(e.child, e.removed, e.added))
  }

  /** However often the line is edited and saved, and whatever it is changed to, the note
      is the one of the first round: kitchen text never piles up in it. */
  lemma {:induction false} EditsNeverAccumulate(note: string, edits: seq<Edit>)
    requires edits != [] && forall i :: 0 <= i < |edits| ==> CleanEdit(edits[i])
    ensures Edited(note, edits) == Settled(note)
  {
    hide Settled, Summary, CustomerNote;
    var n := |edits| - 1;
    var e := edits[n];
    var before := Edited(note, edits[..n]);
    assert CleanEdit(e);
    RoundTrip(before, e.web, e.itemName, e.child, e.removed, e.added);
    if n > 0 {
      EditsNeverAccumulate(note, edits[..n]);
      SettledIdempotent(note);
    } else {
      assert before == note;
    }
  }
}
