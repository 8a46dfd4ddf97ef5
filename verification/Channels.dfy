/**
 * Channel groups of an instrument API document: the tool that expands them
 * into IO entries, and the validator that checks the entries against them.
 */
module Channels {
  import opened Options
  import opened Sequences
  import Text

  datatype IoType = IoType(suffix: string, kind: string, role: string, description: Option<string>, unit: Option<string>)
  datatype Group = Group(name: string, min: int, max: int, types: seq<IoType>)
  datatype Entry = Entry(name: string, kind: string, role: string, description: Option<string>, unit: Option<string>)

  /** `None` for a key the document does not have. */
  datatype Doc = Doc(io: Option<seq<Entry>>, groups: Option<seq<Group>>)

  function EntryName(g: Group, ch: int, ty: IoType): string {
    g.name + Text.Decimal(ch) + "_" + ty.suffix
  }

  function EntryFor(g: Group, ch: int, ty: IoType): Entry {
    Entry(EntryName(g, ch, ty), ty.kind, ty.role, ty.description, ty.unit)
  }

  function Io(doc: Doc): seq<Entry> {
    if doc.io.Some? then doc.io.value else []
  }

  function Groups(doc: Doc): seq<Group> {
    if doc.groups.Some? then doc.groups.value else []
  }

  // ---- Expansion ----------------------------------------------------------

  function ChannelEntries(g: Group, ch: int, types: seq<IoType>): seq<Entry> {
    if types == [] then []
    else ChannelEntries(g, ch, types[..|types| - 1]) + [EntryFor(g, ch, types[|types| - 1])]
  }

  /** The entries of the channels from `g.min` up to but not including `hi`. */
  function GroupEntries(g: Group, hi: int): seq<Entry>
    decreases hi - g.min
  {
    if hi <= g.min then [] else GroupEntries(g, hi - 1) + ChannelEntries(g, hi - 1, g.types)
  }

  function AllEntries(groups: seq<Group>): seq<Entry> {
    if groups == [] then []
    else
      var g := groups[|groups| - 1];
      AllEntries(groups[..|groups| - 1]) + GroupEntries(g, g.max + 1)
  }

  function Expand(doc: Doc): Doc {
    doc.(io := Some(Io(doc) + AllEntries(Groups(doc))))
  }

  /** The name is the group's, the channel's numeral, an underscore and the suffix. */
  lemma EntryNameParts(g: Group, ch: int, ty: IoType)
    ensures
      var name, n := EntryName(g, ch, ty), |g.name| + |Text.Decimal(ch)|;
      && |name| == n + 1 + |ty.suffix|
      && name[..|g.name|] == g.name && name[|g.name|..n] == Text.Decimal(ch) && name[n] == '_' && name[n + 1..] == ty.suffix
  {
  }

  /** Within a group, different channels and different suffixes have different names. */
  lemma NamesDiffer(g: Group, ch: int, ty: IoType, ch': int, ty': IoType)
    requires '_' !in ty.suffix && '_' !in ty'.suffix && EntryName(g, ch, ty) == EntryName(g, ch', ty')
    ensures ch == ch' && ty.suffix == ty'.suffix
  {
    Text.LastFieldUnique(g.name + Text.Decimal(ch), ty.suffix, g.name + Text.Decimal(ch'), ty'.suffix, '_');
    var head := g.name + Text.Decimal(ch);
    assert Text.Decimal(ch) == head[|g.name|..] == Text.Decimal(ch');
    Text.DecimalInjective(ch, ch');
  }

  ghost predicate IsEntry(e: Entry, g: Group, ch: int, ty: IoType) {
    && e.name == g.name + Text.Decimal(ch) + "_" + ty.suffix
    && e.kind == ty.kind && e.role == ty.role && e.description == ty.description && e.unit == ty.unit
  }

  lemma {:induction false} ChannelEntryAt(g: Group, ch: int, types: seq<IoType>, k: nat)
    requires k < |types|
    ensures |ChannelEntries(g, ch, types)| == |types| && IsEntry(ChannelEntries(g, ch, types)[k], g, ch, types[k])
  {
    if |types| > 1 {
      ChannelEntryAt(g, ch, types[..|types| - 1], if k < |types| - 1 then k else 0);
    }
  }

  lemma ChannelLength(g: Group, ch: int)
    ensures |ChannelEntries(g, ch, g.types)| == |g.types|
  {
    if g.types != [] {
      ChannelEntryAt(g, ch, g.types, 0);
    }
  }

  lemma {:induction false} GroupLength(g: Group, hi: int)
    requires g.min <= hi
    ensures |GroupEntries(g, hi)| == (hi - g.min) * |g.types|
    decreases hi - g.min
  {
    if hi > g.min {
      GroupLength(g, hi - 1);
      ChannelLength(g, hi - 1);
      assert (hi - g.min) * |g.types| == (hi - 1 - g.min) * |g.types| + |g.types|;
    }
  }

  /** Channel by channel and type by type: the entry of channel `ch` and type `k` stands at its place. */
  lemma {:induction false} GroupEntryAt(g: Group, hi: int, ch: int, k: nat)
    requires g.min <= ch < hi && k < |g.types|
    ensures
      var i := (ch - g.min) * |g.types| + k;
      0 <= i < |GroupEntries(g, hi)| && IsEntry(GroupEntries(g, hi)[i], g, ch, g.types[k])
    decreases hi - g.min
  {
    GroupLength(g, hi - 1);
    ChannelLength(g, hi - 1);
    if ch == hi - 1 {
      ChannelEntryAt(g, ch, g.types, k);
      PlaceInRange(ch - g.min, |g.types|, k);
    } else {
      GroupEntryAt(g, hi - 1, ch, k);
    }
  }

  lemma PlaceInRange(a: nat, n: nat, k: nat)
    requires k < n
    ensures 0 <= a * n + k
  {
  }

  // ---- Deduplication ------------------------------------------------------

  predicate HasName(s: seq<Entry>, name: string) {
    exists i :: 0 <= i < |s| && s[i].name == name
  }

  function Unique(s: seq<Entry>): seq<Entry> {
    if s == [] then []
    else
      var front, last := s[..|s| - 1], s[|s| - 1];
      if HasName(front, last.name) then Unique(front) else Unique(front) + [last]
  }

  function Deduplicate(doc: Doc): Doc {
    if doc.io.None? then doc else doc.(io := Some(Unique(doc.io.value)))
  }

  /** The whole tool. */
  function Tool(doc: Doc): Doc {
    Deduplicate(Expand(doc))
  }

  /** Entry `i` is the first of its name. */
  predicate First(s: seq<Entry>, i: nat) {
    i < |s| && !HasName(s[..i], s[i].name)
  }

  function Firsts(s: seq<Entry>): seq<nat> {
    if s == [] then []
    else if First(s, |s| - 1) then Firsts(s[..|s| - 1]) + [|s| - 1]
    else Firsts(s[..|s| - 1])
  }

  /** The entries at the positions `kept`, in order, are `u`. */
  ghost predicate Selects(s: seq<Entry>, kept: seq<nat>, u: seq<Entry>) {
    && |u| == |kept| && Increasing(kept)
    && forall k :: 0 <= k < |kept| ==> kept[k] < |s| && u[k] == s[kept[k]]
  }

  lemma SelectsMore(s: seq<Entry>, kept: seq<nat>, u: seq<Entry>, e: Entry)
    requires Selects(s, kept, u)
    ensures Selects(s + [e], kept, u) && Selects(s + [e], kept + [|s|], u + [e])
  {
  }

  lemma FirstStep(s: seq<Entry>, i: nat)
    requires i + 1 < |s|
    ensures First(s, i) <==> First(s[..|s| - 1], i)
  {
    assert s[..|s| - 1][..i] == s[..i];
  }

  lemma {:induction false} FirstsExact(s: seq<Entry>)
    ensures forall i :: i in Firsts(s) <==> First(s, i)
  {
    if s != [] {
      var front := s[..|s| - 1];
      FirstsExact(front);
      forall i: nat | i + 1 < |s| ensures First(s, i) <==> First(front, i) {
        FirstStep(s, i);
      }
    }
  }

  /** Deduplication keeps exactly the first entry of each name, in order. */
  lemma {:induction false} UniqueKeepsFirsts(s: seq<Entry>)
    ensures Selects(s, Firsts(s), Unique(s))
    ensures forall i :: i in Firsts(s) <==> First(s, i)
  {
    FirstsExact(s);
    if s != [] {
      var front, last := s[..|s| - 1], s[|s| - 1];
      UniqueKeepsFirsts(front);
      SelectsMore(front, Firsts(front), Unique(front), last);
      assert s == front + [last];
    }
  }

  ghost predicate DistinctNames(s: seq<Entry>) {
    forall i, j :: 0 <= i < j < |s| ==> s[i].name != s[j].name
  }

  lemma {:induction false} UniqueNames(s: seq<Entry>)
    ensures DistinctNames(Unique(s))
    ensures forall name :: HasName(Unique(s), name) <==> HasName(s, name)
  {
    if s != [] {
      var front, last := s[..|s| - 1], s[|s| - 1];
      UniqueNames(front);
      assert s == front + [last];
      var u, u' := Unique(front), Unique(s);
      forall name ensures HasName(u', name) <==> HasName(s, name) {
        NameOfConcat(front, [last], name);
        NameOfConcat(u, [last], name);
        assert HasName([last], name) <==> [last][0].name == name;
      }
      if !HasName(front, last.name) {
        forall i | 0 <= i < |u| ensures u[i].name != last.name {
          assert u[i].name == last.name ==> HasName(u, last.name);
        }
      }
    }
  }

  lemma NameOfConcat(a: seq<Entry>, b: seq<Entry>, name: string)
    ensures HasName(a + b, name) <==> HasName(a, name) || HasName(b, name)
  {
    if HasName(a, name) {
      var i :| 0 <= i < |a| && a[i].name == name;
      assert (a + b)[i].name == name;
    }
    if HasName(b, name) {
      var i :| 0 <= i < |b| && b[i].name == name;
      assert (a + b)[|a| + i].name == name;
    }
  }

  /** Distinct entries stay, and later entries of the same names vanish. */
  lemma {:induction false} UniqueAbsorbs(a: seq<Entry>, b: seq<Entry>)
    requires DistinctNames(a)
    requires forall i :: 0 <= i < |b| ==> HasName(a, b[i].name)
    ensures Unique(a + b) == a
  {
    if b != [] {
      var front := b[..|b| - 1];
      assert (a + b)[..|a + b| - 1] == a + front;
      UniqueAbsorbs(a, front);
      NameOfConcat(a, front, b[|b| - 1].name);
    } else if a != [] {
      var front := a[..|a| - 1];
      assert a + b == a && front + [] == front;
      UniqueAbsorbs(front, []);
      assert a == front + [a[|a| - 1]];
    } else {
      assert a + b == [];
    }
  }

  // ---- The check ----------------------------------------------------------

  datatype Missing = Missing(group: string, channel: int, suffix: string, expected: string)

  function ChannelGaps(io: seq<Entry>, g: Group, ch: int, types: seq<IoType>): seq<Missing> {
    if types == [] then []
    else
      var ty := types[|types| - 1];
      var before := ChannelGaps(io, g, ch, types[..|types| - 1]);
      if HasName(io, EntryName(g, ch, ty)) then before
      else before + [Missing(g.name, ch, ty.suffix, EntryName(g, ch, ty))]
  }

  function GroupGaps(io: seq<Entry>, g: Group, hi: int): seq<Missing>
    decreases hi - g.min
  {
    if hi <= g.min then [] else GroupGaps(io, g, hi - 1) + ChannelGaps(io, g, hi - 1, g.types)
  }

  function Gaps(io: seq<Entry>, groups: seq<Group>): seq<Missing> {
    if groups == [] then []
    else
      var g := groups[|groups| - 1];
      Gaps(io, groups[..|groups| - 1]) + GroupGaps(io, g, g.max + 1)
  }

  /** The errors of `validate_io_against_channel_groups`. */
  function Check(doc: Doc): seq<Missing> {
    Gaps(Io(doc), Groups(doc))
  }

  /** Every one of `entries` has its name in `io`. */
  ghost predicate Covers(io: seq<Entry>, entries: seq<Entry>) {
    forall i :: 0 <= i < |entries| ==> HasName(io, entries[i].name)
  }

  lemma CoversConcat(io: seq<Entry>, a: seq<Entry>, b: seq<Entry>)
    ensures Covers(io, a + b) <==> Covers(io, a) && Covers(io, b)
  {
    if Covers(io, a + b) {
      forall i | 0 <= i < |a| ensures HasName(io, a[i].name) { assert (a + b)[i] == a[i]; }
      forall i | 0 <= i < |b| ensures HasName(io, b[i].name) { assert (a + b)[|a| + i] == b[i]; }
    }
  }

  lemma {:induction false} ChannelGapsExact(io: seq<Entry>, g: Group, ch: int, types: seq<IoType>)
    ensures ChannelGaps(io, g, ch, types) == [] <==> Covers(io, ChannelEntries(g, ch, types))
  {
    if types != [] {
      var front, ty := types[..|types| - 1], types[|types| - 1];
      ChannelGapsExact(io, g, ch, front);
      var single := [EntryFor(g, ch, ty)];
      CoversConcat(io, ChannelEntries(g, ch, front), single);
      assert Covers(io, single) <==> HasName(io, single[0].name);
    }
  }

  lemma {:induction false} GroupGapsExact(io: seq<Entry>, g: Group, hi: int)
    ensures GroupGaps(io, g, hi) == [] <==> Covers(io, GroupEntries(g, hi))
    decreases hi - g.min
  {
    if hi > g.min {
      GroupGapsExact(io, g, hi - 1);
      ChannelGapsExact(io, g, hi - 1, g.types);
      CoversConcat(io, GroupEntries(g, hi - 1), ChannelEntries(g, hi - 1, g.types));
    }
  }

  lemma {:induction false} GapsExact(io: seq<Entry>, groups: seq<Group>)
    ensures Gaps(io, groups) == [] <==> Covers(io, AllEntries(groups))
  {
    if groups != [] {
      var front, g := groups[..|groups| - 1], groups[|groups| - 1];
      GapsExact(io, front);
      GroupGapsExact(io, g, g.max + 1);
      CoversConcat(io, AllEntries(front), GroupEntries(g, g.max + 1));
    }
  }

  ghost predicate Has(io: seq<Entry>, g: Group, ch: int, k: int)
    requires 0 <= k < |g.types|
  {
    HasName(io, EntryName(g, ch, g.types[k]))
  }

  /** Channel `ch` of the group has all its entries. */
  ghost predicate ChannelComplete(io: seq<Entry>, g: Group, ch: int) {
    forall k :: 0 <= k < |g.types| ==> Has(io, g, ch, k)
  }

  ghost predicate CompleteBelow(io: seq<Entry>, g: Group, hi: int) {
    forall ch :: g.min <= ch < hi ==> ChannelComplete(io, g, ch)
  }

  /** Every name the group stands for, channel by channel and type by type, has an entry. */
  ghost predicate Complete(io: seq<Entry>, g: Group) {
    CompleteBelow(io, g, g.max + 1)
  }

  lemma {:induction false} ChannelCovered(io: seq<Entry>, g: Group, ch: int, n: nat)
    requires n <= |g.types|
    ensures Covers(io, ChannelEntries(g, ch, g.types[..n])) <==> forall k :: 0 <= k < n ==> Has(io, g, ch, k)
  {
    if n > 0 {
      ChannelCovered(io, g, ch, n - 1);
      assert g.types[..n][..n - 1] == g.types[..n - 1];
      var single := [EntryFor(g, ch, g.types[n - 1])];
      CoversConcat(io, ChannelEntries(g, ch, g.types[..n - 1]), single);
      assert Covers(io, single) <==> HasName(io, single[0].name);
      assert Has(io, g, ch, n - 1) <==> HasName(io, single[0].name);
    }
  }

  lemma ChannelIsCovered(io: seq<Entry>, g: Group, ch: int)
    ensures Covers(io, ChannelEntries(g, ch, g.types)) <==> ChannelComplete(io, g, ch)
  {
    ChannelCovered(io, g, ch, |g.types|);
    assert g.types[..|g.types|] == g.types;
  }

  lemma OneMoreChannel(io: seq<Entry>, g: Group, ch: int)
    requires g.min <= ch
    ensures CompleteBelow(io, g, ch + 1) <==> CompleteBelow(io, g, ch) && ChannelComplete(io, g, ch)
  {
  }

  lemma {:induction false} GroupCovered(io: seq<Entry>, g: Group, hi: int)
    ensures Covers(io, GroupEntries(g, hi)) <==> CompleteBelow(io, g, hi)
    decreases hi - g.min
  {
    if hi > g.min {
      var front, last := GroupEntries(g, hi - 1), ChannelEntries(g, hi - 1, g.types);
      GroupCovered(io, g, hi - 1);
      ChannelIsCovered(io, g, hi - 1);
      assert GroupEntries(g, hi) == front + last;
      CoversConcat(io, front, last);
      OneMoreChannel(io, g, hi - 1);
    }
  }

  lemma CompleteIsCovered(io: seq<Entry>, g: Group)
    ensures Covers(io, GroupEntries(g, g.max + 1)) <==> Complete(io, g)
  {
    GroupCovered(io, g, g.max + 1);
  }

  ghost predicate AllComplete(io: seq<Entry>, groups: seq<Group>) {
    forall k :: 0 <= k < |groups| ==> Complete(io, groups[k])
  }

  lemma OneMoreGroup(io: seq<Entry>, groups: seq<Group>, g: Group)
    ensures AllComplete(io, groups + [g]) <==> AllComplete(io, groups) && Complete(io, g)
  {
    if AllComplete(io, groups + [g]) {
      assert (groups + [g])[|groups|] == g;
      forall k | 0 <= k < |groups| ensures Complete(io, groups[k]) { assert (groups + [g])[k] == groups[k]; }
    }
  }

  lemma EntriesAppend(groups: seq<Group>, g: Group)
    ensures AllEntries(groups + [g]) == AllEntries(groups) + GroupEntries(g, g.max + 1)
  {
    assert (groups + [g])[..|groups|] == groups;
  }

  lemma GroupsCoveredNext(io: seq<Entry>, groups: seq<Group>, g: Group)
    requires Covers(io, AllEntries(groups)) <==> AllComplete(io, groups)
    ensures Covers(io, AllEntries(groups + [g])) <==> AllComplete(io, groups + [g])
  {
    EntriesAppend(groups, g);
    CompleteIsCovered(io, g);
    CoversConcat(io, AllEntries(groups), GroupEntries(g, g.max + 1));
    OneMoreGroup(io, groups, g);
  }

  lemma {:induction false} GroupsCovered(io: seq<Entry>, groups: seq<Group>)
    ensures Covers(io, AllEntries(groups)) <==> AllComplete(io, groups)
  {
    if groups != [] {
      var front, g := groups[..|groups| - 1], groups[|groups| - 1];
      GroupsCovered(io, front);
      GroupsCoveredNext(io, front, g);
      FrontAndLast(groups);
    }
  }

  // ---- What the check reports ---------------------------------------------

  /** `m` tells of a name the group stands for and `io` does not have. */
  ghost predicate Tells(m: Missing, io: seq<Entry>, g: Group, ch: int, k: int) {
    && 0 <= k < |g.types| && g.min <= ch <= g.max
    && m.group == g.name && m.channel == ch && m.suffix == g.types[k].suffix
    && m.expected == EntryName(g, ch, g.types[k]) && !HasName(io, m.expected)
  }

  /** The complaint about one name. */
  function GapFor(g: Group, ch: int, ty: IoType): Missing {
    Missing(g.name, ch, ty.suffix, EntryName(g, ch, ty))
  }

  lemma {:induction false} ChannelGapIn(io: seq<Entry>, g: Group, ch: int, types: seq<IoType>, k: nat)
    requires k < |types| && !HasName(io, EntryName(g, ch, types[k]))
    ensures GapFor(g, ch, types[k]) in ChannelGaps(io, g, ch, types)
  {
    if k < |types| - 1 {
      ChannelGapIn(io, g, ch, types[..|types| - 1], k);
    }
  }

  lemma {:induction false} ChannelGapOf(io: seq<Entry>, g: Group, ch: int, types: seq<IoType>, m: Missing) returns (k: nat)
    requires m in ChannelGaps(io, g, ch, types)
    ensures k < |types| && m == GapFor(g, ch, types[k]) && !HasName(io, m.expected)
  {
    var n := |types| - 1;
    if m in ChannelGaps(io, g, ch, types[..n]) {
      k := ChannelGapOf(io, g, ch, types[..n], m);
    } else {
      k := n;
    }
  }

  lemma {:induction false} GroupGapIn(io: seq<Entry>, g: Group, hi: int, ch: int, m: Missing)
    requires g.min <= ch < hi && m in ChannelGaps(io, g, ch, g.types)
    ensures m in GroupGaps(io, g, hi)
    decreases hi - g.min
  {
    if ch < hi - 1 {
      GroupGapIn(io, g, hi - 1, ch, m);
    }
  }

  lemma {:induction false} GroupGapOf(io: seq<Entry>, g: Group, hi: int, m: Missing) returns (ch: int)
    requires m in GroupGaps(io, g, hi)
    ensures g.min <= ch < hi && m in ChannelGaps(io, g, ch, g.types)
    decreases hi - g.min
  {
    if m in GroupGaps(io, g, hi - 1) {
      ch := GroupGapOf(io, g, hi - 1, m);
    } else {
      ch := hi - 1;
    }
  }

  lemma {:induction false} GapIn(io: seq<Entry>, groups: seq<Group>, i: nat, m: Missing)
    requires i < |groups| && m in GroupGaps(io, groups[i], groups[i].max + 1)
    ensures m in Gaps(io, groups)
  {
    if i < |groups| - 1 {
      GapIn(io, groups[..|groups| - 1], i, m);
    }
  }

  lemma {:induction false} GapOf(io: seq<Entry>, groups: seq<Group>, m: Missing) returns (i: nat)
    requires m in Gaps(io, groups)
    ensures i < |groups| && m in GroupGaps(io, groups[i], groups[i].max + 1)
  {
    var n := |groups| - 1;
    if m in Gaps(io, groups[..n]) {
      i := GapOf(io, groups[..n], m);
    } else {
      i := n;
    }
  }

  /** Every report of the check is of a name that a group stands for and the entries do not have. */
  lemma ReportsAreTrue(doc: Doc, m: Missing) returns (g: Group, ch: int, k: int)
    requires m in Check(doc)
    ensures g in Groups(doc) && Tells(m, Io(doc), g, ch, k)
  {
    var i := GapOf(Io(doc), Groups(doc), m);
    g := Groups(doc)[i];
    ch := GroupGapOf(Io(doc), g, g.max + 1, m);
    k := ChannelGapOf(Io(doc), g, ch, g.types, m);
  }

  /** And every such name is reported. */
  lemma ReportsAreComplete(doc: Doc, m: Missing, g: Group, ch: int, k: int)
    requires g in Groups(doc) && Tells(m, Io(doc), g, ch, k)
    ensures m in Check(doc)
  {
    var i :| 0 <= i < |Groups(doc)| && Groups(doc)[i] == g;
    assert m == GapFor(g, ch, g.types[k]);
    ChannelGapIn(Io(doc), g, ch, g.types, k);
    GroupGapIn(Io(doc), g, g.max + 1, ch, m);
    GapIn(Io(doc), Groups(doc), i, m);
  }

  // ---- Main results -------------------------------------------------------

  /** The check finds no error exactly when every group is complete. */
  lemma CheckExact(doc: Doc)
    ensures Check(doc) == [] <==> AllComplete(Io(doc), Groups(doc))
  {
    GapsExact(Io(doc), Groups(doc));
    GroupsCovered(Io(doc), Groups(doc));
  }

  /** The tool's output passes the check, for every document. */
  lemma ToolSatisfiesCheck(doc: Doc)
    ensures Check(Tool(doc)) == []
  {
    var added, all := AllEntries(Groups(doc)), Io(Expand(doc));
    UniqueNames(all);
    forall i | 0 <= i < |added| ensures HasName(Unique(all), added[i].name) {
      assert HasName(added, added[i].name);
      NameOfConcat(Io(doc), added, added[i].name);
    }
    GapsExact(Unique(all), Groups(doc));
  }

  lemma {:induction false} UniquePrefix(a: seq<Entry>, b: seq<Entry>)
    ensures Unique(a) <= Unique(a + b)
  {
    if b == [] {
      assert a + b == a;
    } else {
      var front := b[..|b| - 1];
      assert (a + b)[..|a + b| - 1] == a + front;
      UniquePrefix(a, front);
    }
  }

  /** The document's own entries come first and win over generated ones of the same name; the groups stay. */
  lemma ToolKeepsOriginals(doc: Doc)
    ensures Tool(doc).io.Some? && Unique(Io(doc)) <= Io(Tool(doc)) && Tool(doc).groups == doc.groups
  {
    UniquePrefix(Io(doc), AllEntries(Groups(doc)));
  }

  /** Running the tool a second time changes nothing. */
  lemma ToolIdempotent(doc: Doc)
    ensures Tool(Tool(doc)) == Tool(doc)
  {
    var added, all := AllEntries(Groups(doc)), Io(Expand(doc));
    UniqueNames(all);
    forall i | 0 <= i < |added| ensures HasName(Unique(all), added[i].name) {
      assert HasName(added, added[i].name);
      NameOfConcat(Io(doc), added, added[i].name);
    }
    UniqueAbsorbs(Unique(all), added);
  }

  // ---- The procedures -----------------------------------------------------

  method ExpandChannelGroups(doc: Doc) returns (r: Doc)
    ensures r == Expand(doc)
  {
    var io := if doc.io.None? then [] else doc.io.value;
    if doc.groups.None? {
      assert Io(doc) + [] == io;
      return doc.(io := Some(io));
    }
    var groups := doc.groups.value;
    for k := 0 to |groups|
      invariant io == Io(doc) + AllEntries(groups[..k])
    {
      assert groups[..k + 1][..k] == groups[..k];
      var more := ExpandGroup(groups[k]);
      Regroup(Io(doc), AllEntries(groups[..k]), more);
      io := io + more;
    }
    assert groups[..|groups|] == groups;
    r := doc.(io := Some(io));
  }

  method ExpandGroup(group: Group) returns (entries: seq<Entry>)
    ensures entries == GroupEntries(group, group.max + 1)
  {
    entries := [];
    var ch := group.min;
    while ch <= group.max
      invariant entries == GroupEntries(group, ch)
      invariant ch == group.min || ch <= group.max + 1
    {
      var more := ExpandChannel(group, ch);
      entries := entries + more;
      ch := ch + 1;
    }
  }

  method ExpandChannel(group: Group, ch: int) returns (entries: seq<Entry>)
    ensures entries == ChannelEntries(group, ch, group.types)
  {
    entries := [];
    for j := 0 to |group.types|
      invariant entries == ChannelEntries(group, ch, group.types[..j])
    {
      assert group.types[..j + 1][..j] == group.types[..j];
      entries := entries + [EntryFor(group, ch, group.types[j])];
    }
    assert group.types[..|group.types|] == group.types;
  }

  method DeduplicateIo(doc: Doc) returns (r: Doc)
    ensures r == Deduplicate(doc)
  {
    if doc.io.None? {
      return doc;
    }
    var io := doc.io.value;
    var unique: seq<Entry> := [];
    var seen: set<string> := {};
    for i := 0 to |io|
      invariant unique == Unique(io[..i])
      invariant forall name :: name in seen <==> HasName(io[..i], name)
    {
      var entry := io[i];
      assert io[..i + 1][..i] == io[..i];
      forall name ensures HasName(io[..i + 1], name) <==> HasName(io[..i], name) || name == entry.name {
        NameOfConcat(io[..i], [entry], name);
        assert io[..i + 1] == io[..i] + [entry];
        assert HasName([entry], name) <==> [entry][0].name == name;
      }
      if entry.name !in seen {
        unique := unique + [entry];
        seen := seen + {entry.name};
      }
    }
    assert io[..|io|] == io;
    r := doc.(io := Some(unique));
  }

  method ValidateIo(doc: Doc) returns (errors: seq<Missing>)
    ensures errors == Check(doc)
  {
    errors := [];
    if doc.groups.None? {
      return;
    }
    var io, groups := Io(doc), doc.groups.value;
    for k := 0 to |groups|
      invariant errors == Gaps(io, groups[..k])
    {
      assert groups[..k + 1][..k] == groups[..k];
      var more := ValidateGroup(io, groups[k]);
      errors := errors + more;
    }
    assert groups[..|groups|] == groups;
  }

  method ValidateGroup(io: seq<Entry>, group: Group) returns (errors: seq<Missing>)
    ensures errors == GroupGaps(io, group, group.max + 1)
  {
    errors := [];
    var ch := group.min;
    while ch <= group.max
      invariant errors == GroupGaps(io, group, ch)
      invariant ch == group.min || ch <= group.max + 1
    {
      var more := ValidateChannel(io, group, ch);
      errors := errors + more;
      ch := ch + 1;
    }
  }

  method ValidateChannel(io: seq<Entry>, group: Group, ch: int) returns (errors: seq<Missing>)
    ensures errors == ChannelGaps(io, group, ch, group.types)
  {
    errors := [];
    for j := 0 to |group.types|
      invariant errors == ChannelGaps(io, group, ch, group.types[..j])
    {
      var ty := group.types[j];
      assert group.types[..j + 1][..j] == group.types[..j];
      var expected := EntryName(group, ch, ty);
      if !HasName(io, expected) {
        errors := errors + [Missing(group.name, ch, ty.suffix, expected)];
      }
    }
    assert group.types[..|group.types|] == group.types;
  }
}
