/** The PITR continuity check: which WAL segments of a day were observed,
    and whether they form an unbroken chain from the first to the last
    (CalculateContinuity, findTimestamp in apps/watchdog/internal/api/pitr_logic.go). */
module Continuity {

  import opened Wrappers
  import opened Strings
  import opened Sorting
  import opened Times
  import opened WalNames
  import opened Metadata

  /** Observed WAL file names with their modification times. */
  type WalMap = map<string, Time>

  // ---------------------------------------------------------------------
  // Filtering and canonical names
  // ---------------------------------------------------------------------

  /** The `.partial` cut as written: `name[:24]` on any name containing
      ".partial"; None stands for the slice-bounds panic on a shorter name. */
  function CanonicalAsWritten(name: string): (r: Option<string>)
    ensures r.None? <==> Contains(name, ".partial") && |name| < 24
  {
    if Contains(name, ".partial") then
      (if |name| >= 24 then Some(name[..24]) else None)
    else Some(name)
  }

  /** The `.partial` cut as intended: names containing ".partial" keep their
      first 24 characters; a shorter one is left as it is (and is then
      dropped by the length test). */
  function CanonicalName(name: string): (r: string)
    ensures |r| <= |name| && r == name[..|r|]
    ensures Contains(name, ".partial") && |name| >= 24 ==> r == name[..24]
    ensures !Contains(name, ".partial") ==> r == name
  {
    if Contains(name, ".partial") && |name| >= 24 then name[..24] else name
  }

  /** The time filter: with a base backup time, names modified more than one
      second before it belong to an earlier base backup. */
  predicate AfterBase(modTime: Time, base: Time) {
    base == ZeroTime || !(modTime < base - Second)
  }

  /** A name survives the filter and enters the segment list. */
  predicate Eligible(name: string, modTime: Time, base: Time) {
    !HasSuffix(name, ".backup") && !HasSuffix(name, ".history")
    && AfterBase(modTime, base)
    && |CanonicalName(name)| == 24
  }

  /** What one map entry adds to the segment list: its canonical name, once,
      if it is eligible. */
  function Contribution(name: string, modTime: Time, base: Time): (b: multiset<string>)
    ensures Eligible(name, modTime, base) ==> b == multiset{CanonicalName(name)}
    ensures !Eligible(name, modTime, base) ==> b == multiset{}
  {
    if Eligible(name, modTime, base) then multiset{CanonicalName(name)} else multiset{}
  }

  /** The sum of `f` over the entries of `m`, visiting them in some order. */
  ghost function BagOf(m: WalMap, f: (string, Time) -> multiset<string>): multiset<string>
    decreases |m|
  {
    if |m| == 0 then multiset{}
    else
      var k :| k in m;
      f(k, m[k]) + BagOf(m - {k}, f)
  }

  /** The sum does not depend on the order in which entries are visited. */
  lemma {:induction false} BagOfRemove(m: WalMap, f: (string, Time) -> multiset<string>, k: string)
    requires k in m
    ensures BagOf(m, f) == f(k, m[k]) + BagOf(m - {k}, f)
    decreases |m|
  {
    var j :| j in m && BagOf(m, f) == f(j, m[j]) + BagOf(m - {j}, f);
    if j != k {
      var mj, mk := m - {j}, m - {k};
      assert mj - {k} == mk - {j};
      BagOfRemove(mj, f, k);
      BagOfRemove(mk, f, j);
    }
  }

  /** The segment names the filter keeps, with multiplicity: the sum of the
      contributions of all map entries. */
  ghost function CleanBag(m: WalMap, base: Time): multiset<string> {
    BagOf(m, (k, t) => Contribution(k, t, base))
  }

  lemma CleanBagRemove(m: WalMap, k: string, base: Time)
    requires k in m
    ensures CleanBag(m, base) == Contribution(k, m[k], base) + CleanBag(m - {k}, base)
  {
    BagOfRemove(m, (k, t) => Contribution(k, t, base), k);
  }

  /** A name is in the bag iff some observed name is eligible and canonicalises to it. */
  lemma {:induction false} CleanBagMembers(m: WalMap, base: Time, x: string)
    ensures x in CleanBag(m, base) <==>
      exists k :: k in m && Eligible(k, m[k], base) && CanonicalName(k) == x
    decreases |m|
  {
    if |m| > 0 {
      var k :| k in m;
      CleanBagRemove(m, k, base);
      CleanBagMembers(m - {k}, base, x);
      assert CleanBag(m, base) == Contribution(k, m[k], base) + CleanBag(m - {k}, base);
      if x in CleanBag(m - {k}, base) {
        var j :| j in m - {k} && Eligible(j, (m - {k})[j], base) && CanonicalName(j) == x;
        assert j in m && m[j] == (m - {k})[j];
      }
      if exists j :: j in m && Eligible(j, m[j], base) && CanonicalName(j) == x {
        var j :| j in m && Eligible(j, m[j], base) && CanonicalName(j) == x;
        if j != k {
          assert j in m - {k} && (m - {k})[j] == m[j];
        }
      }
    } else {
      assert forall k :: k !in m;
    }
  }

  /** Every name in the bag has 24 characters. */
  lemma {:induction false} CleanBagLength(m: WalMap, base: Time, x: string)
    requires x in CleanBag(m, base)
    ensures |x| == 24
  {
    CleanBagMembers(m, base, x);
  }

  /** Some sequence holding exactly the elements of `b`. */
  ghost function BagSeq(b: multiset<string>): (r: seq<string>)
    ensures multiset(r) == b
    decreases |b|
  {
    if |b| == 0 then []
    else
      var x :| x in b;
      [x] + BagSeq(b - multiset{x})
  }

  /** The sorted segment list of lines 146-163: the kept names, ascending. */
  ghost function CleanList(m: WalMap, base: Time): (r: seq<string>)
    ensures SortedBy(r, Id, false) && multiset(r) == CleanBag(m, base)
  {
    SortStrings(BagSeq(CleanBag(m, base)))
  }

  predicate AllSegmentNames(list: seq<string>) {
    forall i :: 0 <= i < |list| ==> |list[i]| == 24
  }

  lemma CleanListNames(m: WalMap, base: Time)
    ensures AllSegmentNames(CleanList(m, base))
  {
    var r := CleanList(m, base);
    forall i | 0 <= i < |r| ensures |r[i]| == 24 {
      assert r[i] in multiset(r);
      CleanBagLength(m, base, r[i]);
    }
  }

  // ---------------------------------------------------------------------
  // The chain walk
  // ---------------------------------------------------------------------

  /** nextWALName as a total function value, so that the chain below can be
      stated for any successor; every list it is used on holds only
      24-character names, where it is nextWALName itself. */
  function Successor(name: string): string {
    if |name| >= 16 then NextWalName(name) else name
  }

  /** Element `i` is the successor of element `i - 1`. */
  predicate Linked(list: seq<string>, i: nat, next: string -> string)
    requires 1 <= i < |list|
  {
    list[i] == next(list[i - 1])
  }

  /** Every element is the successor of the one before it. */
  predicate Chain(list: seq<string>, next: string -> string) {
    forall i :: 1 <= i < |list| ==> Linked(list, i, next)
  }

  /** The first index at or after `from` whose element is not the successor
      of its predecessor (the loop of lines 191-202). */
  function GapFrom(list: seq<string>, from: nat, next: string -> string): (r: Option<nat>)
    requires from >= 1
    ensures r.Some? ==> from <= r.value < |list| && !Linked(list, r.value, next)
    decreases |list| - from
  {
    if from >= |list| then None
    else if !Linked(list, from, next) then Some(from)
    else GapFrom(list, from + 1, next)
  }

  /** There is no gap from `from` on exactly when every later element is
      linked, and every element before a gap is linked. */
  lemma {:induction false} GapFromSpec(list: seq<string>, from: nat, next: string -> string)
    requires from >= 1
    ensures GapFrom(list, from, next).None? <==> forall i :: from <= i < |list| ==> Linked(list, i, next)
    ensures GapFrom(list, from, next).Some? ==>
              forall i :: from <= i < GapFrom(list, from, next).value ==> Linked(list, i, next)
    decreases |list| - from
  {
    if from < |list| && Linked(list, from, next) {
      GapFromSpec(list, from + 1, next);
    }
  }

  /** The first gap of the whole list. */
  function FirstGap(list: seq<string>, next: string -> string): Option<nat> {
    GapFrom(list, 1, next)
  }

  /** There is no gap exactly when the list is a chain. */
  lemma NoGapIffChain(list: seq<string>, next: string -> string)
    ensures FirstGap(list, next).None? <==> Chain(list, next)
  {
    GapFromSpec(list, 1, next);
  }

  /** A sorted list holding a name twice has a gap, for any successor that
      moves that name: the twins are neighbours, and a link would make the name
      its own successor. */
  lemma DuplicateMakesGap(list: seq<string>, i: nat, j: nat, next: string -> string)
    requires SortedBy(list, Id, false)
    requires i < j < |list| && list[i] == list[j] && next(list[i]) != list[i]
    ensures FirstGap(list, next).Some?
  {
    assert StrLe(list[i], list[i + 1]) && StrLe(list[i + 1], list[j]);
    StrLeTransitive(list[i + 1], list[j], list[i]);
    StrLeAntisymmetric(list[i], list[i + 1]);
    assert !Linked(list, i + 1, next);
    NoGapIffChain(list, next);
  }

  // ---------------------------------------------------------------------
  // findTimestamp
  // ---------------------------------------------------------------------

  /** findTimestamp's result: the time of some observed name that starts
      with `norm` (map iteration order decides which), or the zero time when
      there is none. */
  ghost predicate TimestampFor(norm: string, m: WalMap, t: Time) {
    (exists k :: k in m && HasPrefix(k, norm) && m[k] == t)
    || ((forall k :: k in m ==> !HasPrefix(k, norm)) && t == ZeroTime)
  }

  method FindTimestamp(norm: string, m: WalMap) returns (t: Time)
    ensures TimestampFor(norm, m, t)
  {
    if k :| k in m && HasPrefix(k, norm) {
      t := m[k];
    } else {
      t := ZeroTime;
    }
  }

  // ---------------------------------------------------------------------
  // The result record
  // ---------------------------------------------------------------------

  /** The fields every result has (lines 165-172, 130). */
  ghost predicate CommonFields(day: string, base: Time, r: PitrMetadata) {
    r.date == day && r.baseBackup == "base.tar.gz" && r.baseBackupTimestamp == base && !r.isArchived
  }

  /** What the record says about a sorted list of segment names. */
  ghost predicate ListResult(day: string, list: seq<string>, m: WalMap, base: Time, r: PitrMetadata)
    requires AllSegmentNames(list)
  {
    CommonFields(day, base, r)
    && if |list| == 0 then
      r.continuous && r.missingSegments == [] && r.timeline == 0
      && r.walStartSegment == "" && r.walEndSegment == ""
      && (if base == ZeroTime then
            r.validUntil == ZeroTime && r.walStartTimestamp == ZeroTime && r.walEndTimestamp == ZeroTime
          else
            r.validUntil == base && r.walStartTimestamp == base && r.walEndTimestamp == base)
    else
      r.timeline == ParseTimeline(list[0][..8])
      && r.walStartSegment == list[0]
      && TimestampFor(list[0], m, r.walStartTimestamp)
      && TimestampFor(list[|list| - 1], m, r.walEndTimestamp)
      && GapFields(list, FirstGap(list, Successor), m, r)
  }

  /** The fields the walk sets for a non-empty list, given the first gap
      (lines 186-200). */
  ghost predicate GapFields(list: seq<string>, gap: Option<nat>, m: WalMap, r: PitrMetadata)
    requires AllSegmentNames(list) && |list| > 0
  {
    match gap
    case None =>
      r.continuous && r.missingSegments == []
      && r.walEndSegment == list[|list| - 1] && r.validUntil == r.walEndTimestamp
    case Some(i) =>
      1 <= i < |list|
      && !r.continuous && r.missingSegments == [NextWalName(list[i - 1])]
      && r.walEndSegment == list[i - 1] && TimestampFor(list[i - 1], m, r.validUntil)
  }

  /** What CalculateContinuity returns for a day, its observed WAL map and
      its base backup time. */
  ghost predicate ContinuityResult(day: string, m: WalMap, base: Time, r: PitrMetadata) {
    CleanListNames(m, base);
    ListResult(day, CleanList(m, base), m, base, r)
  }

  // ---------------------------------------------------------------------
  // The calculation
  // ---------------------------------------------------------------------

  /** Lines 144-162: visit every map entry once, keep the eligible ones'
      canonical names. */
  method CollectSegments(m: WalMap, base: Time) returns (list: seq<string>)
    ensures multiset(list) == CleanBag(m, base)
  {
    list := [];
    var rest := m;
    while |rest| > 0
      invariant forall k :: k in rest ==> k in m && rest[k] == m[k]
      invariant multiset(list) + CleanBag(rest, base) == CleanBag(m, base)
      decreases |rest|
    {
      var name :| name in rest;
      var modTime := rest[name];
      CleanBagRemove(rest, name, base);
      rest := rest - {name};
      if HasSuffix(name, ".backup") || HasSuffix(name, ".history") {
        continue;
      }
      if base != ZeroTime && modTime < base - Second {
        continue;
      }
      var baseName := name;
      if Contains(name, ".partial") && |name| >= 24 {
        baseName := name[..24];
      }
      if |baseName| == 24 {
        list := list + [baseName];
      }
    }
  }

  method CalculateContinuity(day: string, m: WalMap, base: Time) returns (r: PitrMetadata)
    ensures ContinuityResult(day, m, base, r)
  {
    var collected := CollectSegments(m, base);
    var list := SortStrings(collected);
    SortedUnique(list, CleanList(m, base));
    CleanListNames(m, base);
    r := PitrMetadata(day, "base.tar.gz", base, 0, "", "", ZeroTime, ZeroTime, true, [], ZeroTime, false);
    if |list| == 0 {
      if base != ZeroTime {
        r := r.(validUntil := base, walStartTimestamp := base, walEndTimestamp := base);
      }
      return;
    }
    r := WalkSegments(day, list, m, base);
  }

  /** Lines 183-204 for a non-empty sorted list. */
  method WalkSegments(day: string, list: seq<string>, m: WalMap, base: Time) returns (r: PitrMetadata)
    requires AllSegmentNames(list) && |list| > 0
    ensures ListResult(day, list, m, base, r)
  {
    var startTime := FindTimestamp(list[0], m);
    var endTime := FindTimestamp(list[|list| - 1], m);
    var timeline := ParseTimeline(list[0][..8]);
    var gap, expected := FindGap(list);
    if gap.None? {
      r := PitrMetadata(day, "base.tar.gz", base, timeline,
        list[0], list[|list| - 1], startTime, endTime, true, [], endTime, false);
    } else {
      var current := list[gap.value - 1];
      var until := FindTimestamp(current, m);
      r := PitrMetadata(day, "base.tar.gz", base, timeline,
        list[0], current, startTime, endTime, false, [expected], until, false);
    }
    ListResultOf(day, list, m, base, r, gap);
  }

  /** The record for a non-empty list, assembled from its parts. */
  lemma ListResultOf(day: string, list: seq<string>, m: WalMap, base: Time, r: PitrMetadata, gap: Option<nat>)
    requires AllSegmentNames(list) && |list| > 0
    requires CommonFields(day, base, r) && r.timeline == ParseTimeline(list[0][..8]) && r.walStartSegment == list[0]
    requires TimestampFor(list[0], m, r.walStartTimestamp) && TimestampFor(list[|list| - 1], m, r.walEndTimestamp)
    requires gap == FirstGap(list, Successor) && GapFields(list, gap, m, r)
    ensures ListResult(day, list, m, base, r)
  {
  }

  /** The loop of lines 191-202: the first index whose name is not the
      successor of the one before, with the name expected there. */
  method FindGap(list: seq<string>) returns (gap: Option<nat>, expected: string)
    requires AllSegmentNames(list) && |list| > 0
    ensures gap == FirstGap(list, Successor)
    ensures gap.Some? ==> expected == NextWalName(list[gap.value - 1])
  {
    var current := list[0];
    var i := 1;
    while i < |list|
      invariant 1 <= i <= |list| && current == list[i - 1]
      invariant FirstGap(list, Successor) == GapFrom(list, i, Successor)
    {
      expected := NextWalName(current);
      if list[i] != expected {
        return Some(i), expected;
      }
      current := list[i];
      i := i + 1;
    }
    return None, "";
  }

  // ---------------------------------------------------------------------
  // Properties
  // ---------------------------------------------------------------------

  /** A result is continuous exactly when the kept names form a chain, and
      then it reports no missing segment. */
  lemma ContinuousIffChain(day: string, m: WalMap, base: Time, r: PitrMetadata)
    requires ContinuityResult(day, m, base, r)
    ensures AllSegmentNames(CleanList(m, base))
    ensures r.continuous <==> Chain(CleanList(m, base), Successor)
    ensures r.continuous <==> r.missingSegments == []
    ensures !r.continuous ==> |r.missingSegments| == 1
  {
    CleanListNames(m, base);
    NoGapIffChain(CleanList(m, base), Successor);
  }

  /** A name occurring at least twice sits at two different indices. */
  lemma {:induction false} TwoIndices(list: seq<string>, x: string) returns (i: nat, j: nat)
    requires multiset(list)[x] >= 2
    ensures i < j < |list| && list[i] == x && list[j] == x
    decreases |list|
  {
    assert list == [list[0]] + list[1..];
    assert multiset(list) == multiset{list[0]} + multiset(list[1..]);
    if list[0] == x {
      assert x in multiset(list[1..]);
      var k :| 0 <= k < |list[1..]| && list[1..][k] == x;
      i, j := 0, k + 1;
    } else {
      var i', j' := TwoIndices(list[1..], x);
      i, j := i' + 1, j' + 1;
    }
  }

  /** A sorted list holding a name at least twice has a gap, for any
      successor that moves that name. */
  lemma TwiceMakesGap(list: seq<string>, x: string, next: string -> string)
    requires SortedBy(list, Id, false)
    requires multiset(list)[x] >= 2 && next(x) != x
    ensures FirstGap(list, next).Some?
  {
    var i, j := TwoIndices(list, x);
    DuplicateMakesGap(list, i, j, next);
  }

  /** A segment seen both complete and as `.partial` is kept twice. */
  lemma BothFormsKeptTwice(m: WalMap, base: Time, x: string)
    requires |x| == 24 && x in m && x + ".partial" in m
    requires Eligible(x, m[x], base) && Eligible(x + ".partial", m[x + ".partial"], base)
    ensures CleanBag(m, base)[x] >= 2
  {
    var p := x + ".partial";
    ContainsInfix(x, ".partial", "");
    assert x + ".partial" + "" == p;
    assert p[..24] == x;
    assert CanonicalName(p) == x;
    assert CanonicalName(x) == x;
    CleanBagRemove(m, x, base);
    var mx := m - {x};
    assert p in mx && mx[p] == m[p];
    CleanBagRemove(mx, p, base);
  }

  /** Every calculated record names its day and base backup and is not archived. */
  lemma ContinuityNotArchived(day: string, m: WalMap, base: Time, r: PitrMetadata)
    requires ContinuityResult(day, m, base, r)
    ensures CommonFields(day, base, r)
  {
  }

  /** Observing a segment both complete and as `.partial` lists it twice,
      which the walk reports as a gap. */
  lemma BothFormsBreakContinuity(day: string, m: WalMap, base: Time, x: string, r: PitrMetadata)
    requires |x| == 24 && x in m && x + ".partial" in m
    requires Eligible(x, m[x], base) && Eligible(x + ".partial", m[x + ".partial"], base)
    requires ContinuityResult(day, m, base, r)
    ensures !r.continuous
  {
    BothFormsKeptTwice(m, base, x);
    CleanListNames(m, base);
    NextWalNameDiffers(x);
    TwiceMakesGap(CleanList(m, base), x, Successor);
    ContinuousIffChain(day, m, base, r);
  }

  /** A `.partial` name too short to cut never enters the list (the corrected
      reading of line 157, where Go would panic). */
  lemma ShortPartialIgnored(name: string, modTime: Time, base: Time)
    requires Contains(name, ".partial") && |name| < 24
    ensures !Eligible(name, modTime, base)
  {
  }

  /** The as-written cut panics on "a.partial". */
  lemma PartialCutPanics()
    ensures CanonicalAsWritten("a.partial") == None
  {
    ContainsInfix("a", ".partial", "");
    assert "a" + ".partial" + "" == "a.partial";
  }

  /** Wherever the as-written cut does not panic, the two cuts agree. */
  lemma CanonicalAgrees(name: string)
    requires CanonicalAsWritten(name).Some?
    ensures CanonicalAsWritten(name) == Some(CanonicalName(name))
  {
  }
}
