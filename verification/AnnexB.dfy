/** Start codes, the NAL unit splitter and the four scanners of `src/h264.rs`.

    Three loops look for NAL types and one for NAL units. Each is proved against a statement that
    quantifies over positions of the frame: `HeaderAt` says which bytes follow a start code, and
    every scanner is shown to visit exactly those. */
module AnnexB {
  import opened Bytes

  /** A start code and where it begins. */
  datatype StartCode = StartCode(index: nat, len: nat)

  predicate Code3(f: seq<byte>, i: nat) {
    i + 3 <= |f| && f[i] == 0 && f[i + 1] == 0 && f[i + 2] == 1
  }

  predicate Code4(f: seq<byte>, i: nat) {
    i + 4 <= |f| && f[i] == 0 && f[i + 1] == 0 && f[i + 2] == 0 && f[i + 3] == 1
  }

  predicate CodeAt(f: seq<byte>, i: nat) {
    Code3(f, i) || Code4(f, i)
  }

  /** The byte at `p` directly follows a start code. */
  predicate HeaderAt(f: seq<byte>, p: nat) {
    3 <= p < |f| && Code3(f, p - 3)
  }

  ghost predicate HasNalType(f: seq<byte>, t: int) {
    exists p: nat :: HeaderAt(f, p) && NalType(f[p]) == t
  }

  // ---------------------------------------------------------------- searching for a start code

  /** The first start code at or after `from`; a four-byte code wins over the three-byte code inside it. */
  function FirstCode(f: seq<byte>, from: nat): (r: Option<StartCode>)
    ensures r.Some? ==> from <= r.value.index && r.value.len in {3, 4} && r.value.index + r.value.len <= |f|
    decreases |f| - from
  {
    if from + 3 > |f| then None
    else if Code3(f, from) then Some(StartCode(from, 3))
    else if Code4(f, from) then Some(StartCode(from, 4))
    else FirstCode(f, from + 1)
  }

  /** `r` is the earliest start code of `f` at or after `from`. */
  ghost predicate Earliest(f: seq<byte>, from: nat, r: Option<StartCode>) {
    match r
    case None => forall i: nat | from <= i :: !CodeAt(f, i)
    case Some(code) =>
      && from <= code.index
      && CodeAt(f, code.index)
      && code.len == (if Code3(f, code.index) then 3 else 4)
      && forall i: nat | from <= i < code.index :: !CodeAt(f, i)
  }

  lemma {:induction false} FirstCodeIsEarliest(f: seq<byte>, from: nat)
    ensures Earliest(f, from, FirstCode(f, from))
    decreases |f| - from
  {
    if from + 3 <= |f| && !CodeAt(f, from) {
      FirstCodeIsEarliest(f, from + 1);
    }
  }

  method FindNextStartCode(data: seq<byte>, from: nat) returns (r: Option<StartCode>)
    ensures r == FirstCode(data, from)
    ensures Earliest(data, from, r)
  {
    FirstCodeIsEarliest(data, from);
    var index := from;
    while index + 3 <= |data|
      invariant FirstCode(data, index) == FirstCode(data, from)
    {
      if Code3(data, index) {
        return Some(StartCode(index, 3));
      }
      if Code4(data, index) {
        return Some(StartCode(index, 4));
      }
      index := index + 1;
    }
    return None;
  }

  // ---------------------------------------------------------------- scanning for NAL types

  method HasIdrSlice(frame: seq<byte>) returns (r: bool)
    ensures r <==> HasNalType(frame, 5)
  {
    var index := 0;
    while index + 4 <= |frame|
      invariant forall p: nat | p < index + 3 && HeaderAt(frame, p) :: NalType(frame[p]) != 5
    {
      if Code4(frame, index) {
        var nalStart := index + 4;
        if nalStart < |frame| && NalType(frame[nalStart]) == 5 {
          assert HeaderAt(frame, nalStart);
          return true;
        }
        index := nalStart;
      } else if Code3(frame, index) {
        var nalStart := index + 3;
        if nalStart < |frame| && NalType(frame[nalStart]) == 5 {
          assert HeaderAt(frame, nalStart);
          return true;
        }
        index := nalStart;
      } else {
        index := index + 1;
      }
    }
    return false;
  }

  method AnnexBContainsNalType(buf: seq<byte>, target: int) returns (r: bool)
    ensures r <==> HasNalType(buf, target)
  {
    var i := 0;
    while i < Max(|buf| - 3, 0)
      invariant forall p: nat | p < i + 3 && HeaderAt(buf, p) :: NalType(buf[p]) != target
    {
      if buf[i] == 0 && buf[i + 1] == 0 {
        var nalStart;
        if buf[i + 2] == 1 {
          nalStart := i + 3;
        } else if buf[i + 2] == 0 && i + 3 < |buf| && buf[i + 3] == 1 {
          nalStart := i + 4;
        } else {
          i := i + 1;
          continue;
        }
        if nalStart < |buf| && NalType(buf[nalStart]) == target {
          assert HeaderAt(buf, nalStart);
          return true;
        }
        i := nalStart;
      } else {
        i := i + 1;
      }
    }
    return false;
  }

  /** The NAL types found at the header positions below `k`, in stream order. */
  function TypesBelow(f: seq<byte>, k: nat): seq<int>
    requires k <= |f|
  {
    if k == 0 then []
    else TypesBelow(f, k - 1) + if HeaderAt(f, k - 1) then [NalType(f[k - 1])] else []
  }

  lemma {:induction false} TypesBelowSkip(f: seq<byte>, a: nat, b: nat)
    requires a <= b <= |f|
    requires forall p: nat | a <= p < b :: !HeaderAt(f, p)
    ensures TypesBelow(f, a) == TypesBelow(f, b)
    decreases b
  {
    if a < b {
      TypesBelowSkip(f, a, b - 1);
    }
  }

  lemma {:induction false} TypesBelowMembers(f: seq<byte>, k: nat, t: int)
    requires k <= |f|
    ensures t in TypesBelow(f, k) <==> exists p: nat :: p < k && HeaderAt(f, p) && NalType(f[p]) == t
  {
    if k > 0 {
      TypesBelowMembers(f, k - 1, t);
    }
  }

  /** The types seen once the scan stands at `index`. */
  function TypesSeen(f: seq<byte>, index: nat): seq<int> {
    TypesBelow(f, Min(index + 3, |f|))
  }

  lemma {:induction false} TypesSeenPlain(f: seq<byte>, index: nat)
    requires index + 4 <= |f| && !CodeAt(f, index)
    ensures TypesSeen(f, index + 1) == TypesSeen(f, index)
  {
    TypesBelowSkip(f, index + 3, index + 4);
  }

  lemma {:induction false} TypesSeenCode(f: seq<byte>, index: nat, next: nat)
    requires index + 4 <= |f| && CodeAt(f, index)
    requires next == index + if Code3(f, index) then 3 else 4
    ensures TypesSeen(f, next) == TypesSeen(f, index) + if next < |f| then [NalType(f[next])] else []
  {
    TypesBelowSkip(f, index + 3, next);
    if next < |f| {
      assert HeaderAt(f, next);
      assert TypesBelow(f, next + 1) == TypesBelow(f, next) + [NalType(f[next])];
      TypesBelowSkip(f, next + 1, Min(next + 3, |f|));
    }
  }

  method CollectAnnexBNalTypes(frame: seq<byte>) returns (types: seq<int>)
    ensures types == TypesBelow(frame, |frame|)
  {
    types := [];
    var index := 0;
    TypesBelowSkip(frame, 0, Min(3, |frame|));
    while index + 4 <= |frame|
      invariant types == TypesSeen(frame, index)
    {
      if Code4(frame, index) {
        TypesSeenCode(frame, index, index + 4);
        if index + 4 < |frame| {
          types := types + [NalType(frame[index + 4])];
        }
        index := index + 4;
      } else if Code3(frame, index) {
        TypesSeenCode(frame, index, index + 3);
        if index + 3 < |frame| {
          types := types + [NalType(frame[index + 3])];
        }
        index := index + 3;
      } else {
        TypesSeenPlain(frame, index);
        index := index + 1;
      }
    }
  }

  // ---------------------------------------------------------------- splitting into NAL units

  /** Where the NAL unit that begins at `s` ends: at the next start code or at the end of the frame. */
  function NalEnd(f: seq<byte>, s: nat): (e: nat)
    requires s <= |f|
    ensures s <= e <= |f|
  {
    match FirstCode(f, s)
    case None => |f|
    case Some(code) => code.index
  }

  function NalsFrom(f: seq<byte>, from: nat): seq<seq<byte>>
    requires from <= |f|
    decreases |f| - from, 0
  {
    match FirstCode(f, from)
    case None => []
    case Some(code) => NalsAfter(f, code.index + code.len)
  }

  /** The NAL units from `s` on, where `s` directly follows a start code. */
  function NalsAfter(f: seq<byte>, s: nat): seq<seq<byte>>
    requires s <= |f|
    decreases |f| - s, 1
  {
    var e := NalEnd(f, s);
    (if s < e then [f[s..e]] else []) + NalsFrom(f, e)
  }

  function Nals(f: seq<byte>): seq<seq<byte>> {
    NalsFrom(f, 0)
  }

  lemma {:induction false} NalsFromStep(f: seq<byte>, from: nat, s: nat, e: nat)
    requires from <= |f| && FirstCode(f, from).Some?
    requires s == FirstCode(f, from).value.index + FirstCode(f, from).value.len && e == NalEnd(f, s)
    ensures NalsFrom(f, from) == (if s < e then [f[s..e]] else []) + NalsFrom(f, e)
  {
  }

  method SplitAnnexBNalus(frame: seq<byte>) returns (nalus: seq<seq<byte>>)
    ensures nalus == Nals(frame)
  {
    nalus := [];
    var searchFrom := 0;
    var next := FindNextStartCode(frame, searchFrom);
    while next.Some?
      invariant searchFrom <= |frame|
      invariant next == FirstCode(frame, searchFrom)
      invariant Nals(frame) == nalus + NalsFrom(frame, searchFrom)
      decreases |frame| - searchFrom
    {
      var nalStart := next.value.index + next.value.len;
      var end := FindNextStartCode(frame, nalStart);
      var nalEnd := if end.Some? then end.value.index else |frame|;
      ghost var found := if nalStart < nalEnd then [frame[nalStart..nalEnd]] else [];
      NalsFromStep(frame, searchFrom, nalStart, nalEnd);
      Assoc(nalus, found, NalsFrom(frame, nalEnd));
      ghost var grown := nalus + found;
      if nalStart < nalEnd {
        nalus := nalus + [frame[nalStart..nalEnd]];
      }
      assert nalus == grown;
      searchFrom := nalEnd;
      next := FindNextStartCode(frame, searchFrom);
    }
    assert NalsFrom(frame, searchFrom) == [];
  }

  ghost predicate HasNalOfType(nals: seq<seq<byte>>, t: int) {
    exists k :: 0 <= k < |nals| && nals[k] != [] && NalType(nals[k][0]) == t
  }

  ghost predicate VisibleHeader(f: seq<byte>, from: nat, t: int, p: nat) {
    HeaderAt(f, p) && from <= p - 3 && NalType(f[p]) == t && !CodeAt(f, p)
  }

  lemma {:induction false} HasNalOfTypeCons(a: seq<seq<byte>>, b: seq<seq<byte>>, t: int)
    ensures HasNalOfType(a + b, t) <==> HasNalOfType(a, t) || HasNalOfType(b, t)
  {
    if HasNalOfType(b, t) {
      var k :| 0 <= k < |b| && b[k] != [] && NalType(b[k][0]) == t;
      assert (a + b)[|a| + k] == b[k];
    }
    if HasNalOfType(a, t) {
      var k :| 0 <= k < |a| && a[k] != [] && NalType(a[k][0]) == t;
      assert (a + b)[k] == a[k];
    }
  }

  /** From `from` on, headers follow the first start code or lie behind the NAL unit after it. */
  lemma {:induction false} HeadersBehind(f: seq<byte>, from: nat, s: nat, e: nat)
    requires from <= |f| && FirstCode(f, from).Some?
    requires s == FirstCode(f, from).value.index + FirstCode(f, from).value.len && e == NalEnd(f, s)
    ensures from <= s - 3 <= e - 3 && (s < |f| ==> HeaderAt(f, s) && (s < e <==> !CodeAt(f, s)))
    ensures forall p: nat | HeaderAt(f, p) && from <= p - 3 :: p == s || e <= p - 3
  {
    FirstCodeIsEarliest(f, from);
    FirstCodeIsEarliest(f, s);
    forall p: nat | HeaderAt(f, p) && from <= p - 3 ensures p == s || e <= p - 3 {
      assert CodeAt(f, p - 3);
    }
  }

  /** So the headers visible from `from` are the first one, if it is a NAL unit's, and those visible from
      the end of that unit. */
  lemma {:induction false} VisibleHeadersSplit(f: seq<byte>, from: nat, s: nat, e: nat, t: int)
    requires from <= |f| && FirstCode(f, from).Some?
    requires s == FirstCode(f, from).value.index + FirstCode(f, from).value.len && e == NalEnd(f, s)
    ensures (exists p: nat :: VisibleHeader(f, from, t, p)) <==>
            (s < e && NalType(f[s]) == t) || exists p: nat :: VisibleHeader(f, e, t, p)
  {
    HeadersBehind(f, from, s, e);
    if s < e && NalType(f[s]) == t { assert VisibleHeader(f, from, t, s); }
    if p: nat :| VisibleHeader(f, e, t, p) { assert VisibleHeader(f, from, t, p); }
    if p: nat :| VisibleHeader(f, from, t, p) {
      if p != s { assert VisibleHeader(f, e, t, p); }
    }
  }

  /** The splitter keeps a NAL of type `t` from `from` on exactly when a header of that type follows a
      start code there and is not itself the first byte of the next start code. */
  lemma {:induction false} NalsFromTypes(f: seq<byte>, from: nat, t: int)
    requires from <= |f|
    ensures HasNalOfType(NalsFrom(f, from), t) <==> exists p: nat :: VisibleHeader(f, from, t, p)
    decreases |f| - from
  {
    match FirstCode(f, from)
    case None =>
      FirstCodeIsEarliest(f, from);
      assert forall p: nat | HeaderAt(f, p) && from <= p - 3 :: CodeAt(f, p - 3);
    case Some(code) =>
      var s := code.index + code.len;
      var e := NalEnd(f, s);
      var head := if s < e then [f[s..e]] else [];
      NalsFromTypes(f, e, t);
      HasNalOfTypeCons(head, NalsFrom(f, e), t);
      HasNalOfTypeOne(f, s, e, t);
      VisibleHeadersSplit(f, from, s, e, t);
  }

  lemma {:induction false} HasNalOfTypeOne(f: seq<byte>, s: nat, e: nat, t: int)
    requires s <= e <= |f|
    ensures HasNalOfType(if s < e then [f[s..e]] else [], t) <==> s < e && NalType(f[s]) == t
  {
    if s < e { assert [f[s..e]][0][0] == f[s]; }
  }

  /** All scanners see the same NAL types 1..31. */
  lemma {:induction false} ScannersAgree(f: seq<byte>, t: int)
    requires t != 0
    ensures HasNalType(f, t) <==> t in TypesBelow(f, |f|)
    ensures HasNalType(f, t) <==> HasNalOfType(Nals(f), t)
  {
    TypesBelowMembers(f, |f|, t);
    NalsFromTypes(f, 0, t);
    if HasNalType(f, t) {
      var p: nat :| HeaderAt(f, p) && NalType(f[p]) == t;
      assert VisibleHeader(f, 0, t, p);
    }
  }

  /** A header of type 0 that is a NAL unit's and not the first byte of another start code. */
  ghost predicate HasTrueTypeZero(f: seq<byte>) {
    exists p: nat :: HeaderAt(f, p) && NalType(f[p]) == 0 && !CodeAt(f, p)
  }

  /** Type 0 is where the splitter and the type scanners part: a zero byte between two start codes counts
      as a header for the scanners and as no NAL unit for the splitter. They agree exactly when the
      scanners see no such header or there is a true one beside it. */
  lemma {:induction false} TypeZeroAgreesIff(f: seq<byte>)
    ensures HasNalType(f, 0) <==> 0 in TypesBelow(f, |f|)
    ensures HasNalOfType(Nals(f), 0) <==> HasTrueTypeZero(f)
    ensures (HasNalType(f, 0) <==> HasNalOfType(Nals(f), 0)) <==> (HasNalType(f, 0) ==> HasTrueTypeZero(f))
  {
    TypesBelowMembers(f, |f|, 0);
    NalsFromTypes(f, 0, 0);
    if p: nat :| HeaderAt(f, p) && NalType(f[p]) == 0 && !CodeAt(f, p) {
      assert VisibleHeader(f, 0, 0, p);
    }
  }

  lemma {:induction false} TypeZeroDisagreement()
    ensures var f: seq<byte> := [0, 0, 1, 0, 0, 1, 9];
            HasNalType(f, 0) && !HasNalOfType(Nals(f), 0)
  {
    var f: seq<byte> := [0, 0, 1, 0, 0, 1, 9];
    assert HeaderAt(f, 3);
    TypeZeroAgreesIff(f);
    assert forall p: nat | HeaderAt(f, p) :: p == 3 || p == 6;
  }
}
