/** What a selection must satisfy, and what the defaults are, said of the groups themselves
    (packages/customization/src/index.ts). */
module SelectionLimits {
  import opened Strings
  import opened Catalog
  import opened SelectionRules

  /** What is selected in the group. */
  function Picks(selections: Selections, g: GroupInfo): seq<string> {
    if g.id in selections then selections[g.id] else []
  }

  predicate Offers(g: Group, id: string) {
    exists j :: 0 <= j < |g.options| && g.options[j].id == id
  }

  /** Group k's picks are options of the group, each picked once and in no group before. */
  predicate InMenu(groups: seq<Group>, selections: Selections, k: nat)
    requires k < |groups|
  {
    var picks := Picks(selections, groups[k].info);
    && (forall i, j :: 0 <= i < j < |picks| ==> picks[i] != picks[j])
    && (forall i :: 0 <= i < |picks| ==> Offers(groups[k], picks[i]))
    && (forall i, m :: 0 <= i < |picks| && 0 <= m < k ==> picks[i] !in Picks(selections, groups[m].info))
  }

  /** Enough are picked: the group's minimum, and one if it is required. */
  predicate Enough(g: GroupInfo, n: nat) {
    n >= g.minSelect && (g.isRequired ==> n >= 1)
  }

  /** Not too many are picked: no more than the maximum, if there is one, and one in a single choice. */
  predicate NotTooMany(g: GroupInfo, n: nat) {
    (g.maxSelect.Some? ==> n <= g.maxSelect.value) && (g.selectionMode == "SINGLE" ==> n <= 1)
  }

  predicate Satisfied(groups: seq<Group>, selections: Selections, k: nat)
    requires k < |groups|
  {
    var n := |Picks(selections, groups[k].info)|;
    InMenu(groups, selections, k) && Enough(groups[k].info, n) && NotTooMany(groups[k].info, n)
  }

  lemma {:induction false} SeenExact(groups: seq<Group>, selections: Selections, id: string)
    ensures id in SeenBefore(groups, selections) <==> exists m :: 0 <= m < |groups| && id in Picks(selections, groups[m].info)
  {
    if groups != [] {
      var n := |groups| - 1;
      SeenExact(groups[..n], selections, id);
      var last := SelectedIn(selections, groups[n].info.id);
      assert last == Picks(selections, groups[n].info);
      assert id in SetOf(last) <==> id in last;
      if m :| 0 <= m < |groups| && id in Picks(selections, groups[m].info) {
        assert m < n ==> groups[..n][m] == groups[m];
      }
      if m :| 0 <= m < n && id in Picks(selections, groups[..n][m].info) {
        assert groups[m] == groups[..n][m];
      }
    }
  }

  lemma {:induction false} InMenuExact(groups: seq<Group>, selections: Selections, k: nat)
    requires k < |groups|
    ensures var selected := SelectedIn(selections, groups[k].info.id);
            InMenu(groups, selections, k) <==>
              NoDuplicates(selected) && forall i :: 0 <= i < |selected| ==>
                selected[i] !in SeenBefore(groups[..k], selections) && HasOption(groups[k], selected[i])
  {
    hide SeenBefore;
    var selected := SelectedIn(selections, groups[k].info.id);
    forall i | 0 <= i < |selected|
      ensures HasOption(groups[k], selected[i]) <==> Offers(groups[k], selected[i])
      ensures selected[i] in SeenBefore(groups[..k], selections) <==>
                exists m :: 0 <= m < k && selected[i] in Picks(selections, groups[m].info)
    {
      SeenExact(groups[..k], selections, selected[i]);
      if m :| 0 <= m < k && selected[i] in Picks(selections, groups[m].info) {
        assert groups[..k][m] == groups[m];
      }
      assert forall m :: 0 <= m < k ==> groups[..k][m] == groups[m];
    }
  }

  /** The verdict of one group. */
  lemma {:induction false} GroupVerdictExact(groups: seq<Group>, selections: Selections, k: nat)
    requires k < |groups|
    ensures var g := groups[k].info;
            var shown := if g.displayLabel != "" then g.displayLabel else g.name;
            var n := |Picks(selections, g)|;
            GroupVerdict(groups[k], SelectedIn(selections, g.id), SeenBefore(groups[..k], selections))
            == if !InMenu(groups, selections, k) then Stale
               else if !Enough(g, n) then TooFew(shown)
               else if !NotTooMany(g, n) then TooMany(shown)
               else Accepted
  {
    InMenuExact(groups, selections, k);
    hide InMenu, SeenBefore;
  }

  /** A selection is accepted exactly when it picks from groups of the menu only and satisfies each. */
  lemma {:induction false} AcceptedExact(groups: seq<Group>, selections: Selections)
    ensures Validate(groups, selections) == Accepted <==>
              && (forall id :: id in selections && selections[id] != [] ==> exists k :: 0 <= k < |groups| && groups[k].info.id == id)
              && forall k :: 0 <= k < |groups| ==> Satisfied(groups, selections, k)
  {
    hide Satisfied;
    if VerdictFrom(groups, selections, 0) == Accepted {
      forall k | 0 <= k < |groups| ensures Satisfied(groups, selections, k) {
        AcceptedFrom(groups, selections, 0, k);
        SatisfiedExact(groups, selections, k);
      }
    } else {
      var k := FirstRejected(groups, selections, 0);
      SatisfiedExact(groups, selections, k);
    }
  }

  lemma {:induction false} SatisfiedExact(groups: seq<Group>, selections: Selections, k: nat)
    requires k < |groups|
    ensures Satisfied(groups, selections, k) <==>
              GroupVerdict(groups[k], SelectedIn(selections, groups[k].info.id), SeenBefore(groups[..k], selections)) == Accepted
  {
    hide InMenu, Enough, NotTooMany, GroupVerdict, SeenBefore;
    GroupVerdictExact(groups, selections, k);
  }

  lemma {:induction false} FirstRejected(groups: seq<Group>, selections: Selections, n: nat) returns (k: nat)
    requires n <= |groups| && VerdictFrom(groups, selections, n) != Accepted
    ensures n <= k < |groups|
    ensures VerdictFrom(groups, selections, n)
         == GroupVerdict(groups[k], SelectedIn(selections, groups[k].info.id), SeenBefore(groups[..k], selections))
    ensures forall i :: n <= i < k ==> Satisfied(groups, selections, i)
    decreases |groups| - n
  {
    hide GroupVerdict, SeenBefore, Satisfied;
    if GroupVerdict(groups[n], SelectedIn(selections, groups[n].info.id), SeenBefore(groups[..n], selections)) != Accepted {
      k := n;
    } else {
      SatisfiedExact(groups, selections, n);
      k := FirstRejected(groups, selections, n + 1);
    }
  }

  /** A selection that is rejected although it names no unknown group is rejected for the first group
      that it does not satisfy: what is picked is not on the menu, or too few are, or too many. */
  lemma {:induction false} RejectedFor(groups: seq<Group>, selections: Selections) returns (k: nat)
    requires Validate(groups, selections) != Accepted
    requires forall id :: id in selections && selections[id] != [] ==> exists i :: 0 <= i < |groups| && groups[i].info.id == id
    ensures k < |groups| && !Satisfied(groups, selections, k) && forall i :: 0 <= i < k ==> Satisfied(groups, selections, i)
    ensures var g := groups[k].info;
            var shown := if g.displayLabel != "" then g.displayLabel else g.name;
            Validate(groups, selections)
            == if !InMenu(groups, selections, k) then Stale
               else if !Enough(g, |Picks(selections, g)|) then TooFew(shown)
               else TooMany(shown)
  {
    hide Satisfied, InMenu, Enough, NotTooMany, GroupVerdict, SeenBefore;
    k := FirstRejected(groups, selections, 0);
    SatisfiedExact(groups, selections, k);
    GroupVerdictExact(groups, selections, k);
  }

  // ----- defaults

  /** Option j of the group is preselected: marked so, or the only option of a single choice of size. */
  predicate Preselected(g: Group, j: nat) {
    && j < |g.options|
    && (g.options[j].isDefault
        || (g.info.contextKey == Some("size") && g.info.selectionMode == "SINGLE" && |g.options| == 1))
  }

  /** How many of `total` defaults are taken: no more than the maximum, and one in a single choice; a
      negative maximum leaves out as many from the end. */
  function Taken(g: GroupInfo, total: nat): int {
    var single := g.selectionMode == "SINGLE";
    if g.maxSelect.Some? && g.maxSelect.value < 0 then (if total + g.maxSelect.value < 0 then 0 else total + g.maxSelect.value)
    else if total >= 1 && single && (g.maxSelect.None? || g.maxSelect.value >= 1) then 1
    else if g.maxSelect.Some? && g.maxSelect.value < total then g.maxSelect.value
    else total
  }

  /** The places of the group's defaults among some options, in order. */
  ghost predicate ArePlaces(g: Group, options: seq<MenuOption>, ps: seq<nat>) {
    && (forall c, d :: 0 <= c < d < |ps| ==> ps[c] < ps[d])
    && (forall j: nat :: j in ps <==> j < |options| && IsDefault(g, options[j]))
  }

  function Shifted(ps: seq<nat>): (r: seq<nat>)
    ensures |r| == |ps| && forall c :: 0 <= c < |r| ==> r[c] == ps[c] + 1
  {
    seq(|ps|, c requires 0 <= c < |ps| => ps[c] + 1)
  }

  lemma {:induction false} ShiftedMember(ps: seq<nat>, j: nat)
    ensures j in Shifted(ps) <==> j > 0 && j - 1 in ps
  {
    if j > 0 && j - 1 in ps {
      var c :| 0 <= c < |ps| && ps[c] == j - 1;
      assert Shifted(ps)[c] == j;
    }
  }

  lemma {:induction false} PlacesCons(g: Group, options: seq<MenuOption>, rest: seq<nat>)
    requires options != [] && ArePlaces(g, options[1..], rest)
    ensures ArePlaces(g, options, if IsDefault(g, options[0]) then [0] + Shifted(rest) else Shifted(rest))
  {
    hide IsDefault;
    var ps := if IsDefault(g, options[0]) then [0] + Shifted(rest) else Shifted(rest);
    forall j: nat ensures j in ps <==> j < |options| && IsDefault(g, options[j]) {
      ShiftedMember(rest, j);
      assert 0 < j < |options| ==> options[1..][j - 1] == options[j];
    }
  }

  function Places(g: Group, options: seq<MenuOption>): (ps: seq<nat>)
    ensures |ps| == |DefaultsOf(g, options)|
  {
    hide IsDefault;
    if options == [] then []
    else if IsDefault(g, options[0]) then [0] + Shifted(Places(g, options[1..]))
    else Shifted(Places(g, options[1..]))
  }

  lemma {:induction false} PlacesAre(g: Group, options: seq<MenuOption>)
    ensures ArePlaces(g, options, Places(g, options))
  {
    if options != [] {
      PlacesAre(g, options[1..]);
      PlacesCons(g, options, Places(g, options[1..]));
      hide IsDefault, ArePlaces;
    }
  }

  lemma {:induction false} DefaultAtPlace(g: Group, options: seq<MenuOption>, c: nat)
    requires c < |Places(g, options)|
    ensures Places(g, options)[c] < |options| && DefaultsOf(g, options)[c] == options[Places(g, options)[c]]
  {
    hide IsDefault;
    var first := if IsDefault(g, options[0]) then 1 else 0;
    if c >= first {
      DefaultAtPlace(g, options[1..], c - first);
    }
  }

  /** A group starts with the ids of its preselected options, in order, as far as they may be taken. */
  lemma {:induction false} DefaultsExact(groups: seq<Group>, i: nat) returns (ps: seq<nat>)
    requires i < |groups| && forall k :: i < k < |groups| ==> groups[k].info.id != groups[i].info.id
    ensures forall c, d :: 0 <= c < d < |ps| ==> ps[c] < ps[d]
    ensures forall j: nat :: j in ps <==> Preselected(groups[i], j)
    ensures forall c :: 0 <= c < |ps| ==> ps[c] < |groups[i].options|
    ensures var ids := Picks(DefaultSelections(groups), groups[i].info);
            |ids| == Taken(groups[i].info, |ps|) <= |ps| && forall c :: 0 <= c < |ids| ==> ids[c] == groups[i].options[ps[c]].id
  {
    var g := groups[i];
    ps := Places(g, g.options);
    PlacesAre(g, g.options);
    forall c: nat | c < |ps| ensures ps[c] < |g.options| && DefaultsOf(g, g.options)[c] == g.options[ps[c]] {
      DefaultAtPlace(g, g.options, c);
    }
    LastCounts(groups, i);
    TakenExact(g, DefaultsOf(g, g.options));
  }

  lemma {:induction false} LastCounts(groups: seq<Group>, i: nat)
    requires i < |groups| && forall k :: i < k < |groups| ==> groups[k].info.id != groups[i].info.id
    ensures Picks(DefaultSelections(groups), groups[i].info) == DefaultIds(groups[i])
  {
    hide DefaultIds;
    var n := |groups| - 1;
    if i < n {
      LastCounts(groups[..n], i);
    }
  }

  lemma {:induction false} TakenExact(g: Group, defaults: seq<MenuOption>)
    ensures var s := Slice(defaults, MaximumSelections(g.info));
            |s| == Taken(g.info, |defaults|) <= |defaults| && s == defaults[..|s|]
  {
  }
}
