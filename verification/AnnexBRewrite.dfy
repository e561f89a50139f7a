/** Rewriting the start codes of a frame, and how splitting and joining undo each other. */
module AnnexBRewrite {
  import opened Bytes
  import opened AnnexB

  /** A NAL unit that a splitter can give back: it holds a byte and no start code. */
  ghost predicate Clean(nal: seq<byte>) {
    nal != [] && forall i: nat :: !Code3(nal, i)
  }

  ghost predicate AllClean(nals: seq<seq<byte>>) {
    forall k | 0 <= k < |nals| :: Clean(nals[k])
  }

  function Code(len: nat): (c: seq<byte>)
    ensures |c| == (if len == 3 then 3 else 4)
  {
    if len == 3 then [0, 0, 1] else [0, 0, 0, 1]
  }

  function Join(nals: seq<seq<byte>>, first: nat, rest: nat): seq<byte> {
    if nals == [] then [] else Code(first) + nals[0] + Join(nals[1..], rest, rest)
  }

  /** The four-byte form that the receiver assembles. */
  function Join4(nals: seq<seq<byte>>): seq<byte> {
    Join(nals, 4, 4)
  }

  function TotalBytes(nals: seq<seq<byte>>): nat {
    if nals == [] then 0 else |nals[0]| + TotalBytes(nals[1..])
  }

  function Rewrite(f: seq<byte>, first: nat, rest: nat): Option<seq<byte>> {
    var nals := Nals(f);
    if nals == [] || first !in {3, 4} || (|nals| > 1 && rest !in {3, 4}) then None
    else Some(Join(nals, first, rest))
  }

  lemma {:induction false} JoinTake(nals: seq<seq<byte>>, k: nat, first: nat, rest: nat)
    requires k < |nals|
    ensures Join(nals[..k + 1], first, rest) ==
            Join(nals[..k], first, rest) + Code(if k == 0 then first else rest) + nals[k]
  {
    JoinSnoc(nals[..k], nals[k], first, rest);
    assert nals[..k] + [nals[k]] == nals[..k + 1];
  }

  lemma {:induction false} JoinSnoc(nals: seq<seq<byte>>, nal: seq<byte>, first: nat, rest: nat)
    ensures Join(nals + [nal], first, rest) ==
            Join(nals, first, rest) + (Code(if nals == [] then first else rest) + nal)
  {
    if nals == [] {
      assert [nal][1..] == [];
    } else {
      assert (nals + [nal])[1..] == nals[1..] + [nal];
      JoinSnoc(nals[1..], nal, rest, rest);
    }
  }

  method RewriteStartCodes(frame: seq<byte>, first: nat, rest: nat) returns (r: Option<seq<byte>>)
    ensures r == Rewrite(frame, first, rest)
  {
    var nalus := SplitAnnexBNalus(frame);
    if |nalus| == 0 {
      return None;
    }
    var out: seq<byte> := [];
    var index := 0;
    while index < |nalus|
      invariant index <= |nalus|
      invariant index >= 1 ==> first in {3, 4}
      invariant index >= 2 ==> rest in {3, 4}
      invariant out == Join(nalus[..index], first, rest)
    {
      var startCodeLen := if index == 0 then first else rest;
      if startCodeLen == 3 {
        out := out + [0, 0, 1];
      } else if startCodeLen == 4 {
        out := out + [0, 0, 0, 1];
      } else {
        return None;
      }
      out := out + nalus[index];
      JoinTake(nalus, index, first, rest);
      index := index + 1;
    }
    assert nalus[..|nalus|] == nalus;
    return Some(out);
  }

  // ---------------------------------------------------------------- reading a frame behind a prefix

  lemma CodeShift(a: seq<byte>, b: seq<byte>, i: nat)
    ensures Code3(a + b, |a| + i) <==> Code3(b, i)
    ensures Code4(a + b, |a| + i) <==> Code4(b, i)
  {
  }

  function ShiftCode(offset: nat, r: Option<StartCode>): Option<StartCode> {
    match r
    case None => None
    case Some(code) => Some(StartCode(offset + code.index, code.len))
  }

  lemma {:induction false} FirstCodeShift(a: seq<byte>, b: seq<byte>, from: nat)
    ensures FirstCode(a + b, |a| + from) == ShiftCode(|a|, FirstCode(b, from))
    decreases |b| - from
  {
    CodeShift(a, b, from);
    if from + 3 <= |b| && !CodeAt(b, from) {
      FirstCodeShift(a, b, from + 1);
    }
  }

  lemma {:induction false} NalsFromFirst(f: seq<byte>, from: nat)
    requires from <= |f|
    ensures NalsFrom(f, from) ==
            match FirstCode(f, from)
            case None => []
            case Some(code) => NalsAfter(f, code.index + code.len)
  {
  }

  lemma {:induction false} NalsFromShift(a: seq<byte>, b: seq<byte>, from: nat)
    requires from <= |b|
    ensures NalsFrom(a + b, |a| + from) == NalsFrom(b, from)
    decreases |b| - from, 0
  {
    FirstCodeShift(a, b, from);
    NalsFromFirst(a + b, |a| + from);
    NalsFromFirst(b, from);
    if FirstCode(b, from).Some? {
      var code := FirstCode(b, from).value;
      NalsAfterShift(a, b, code.index + code.len);
    }
  }

  lemma {:induction false} NalsAfterShift(a: seq<byte>, b: seq<byte>, s: nat)
    requires s <= |b|
    ensures NalsAfter(a + b, |a| + s) == NalsAfter(b, s)
    decreases |b| - s, 1
  {
    FirstCodeShift(a, b, s);
    var e := NalEnd(b, s);
    assert NalEnd(a + b, |a| + s) == |a| + e;
    assert (a + b)[|a| + s..|a| + e] == b[s..e];
    NalsFromShift(a, b, e);
  }

  // ---------------------------------------------------------------- split then join, join then split

  lemma {:induction false} NalsFromClean(f: seq<byte>, from: nat)
    requires from <= |f|
    ensures AllClean(NalsFrom(f, from))
    decreases |f| - from
  {
    match FirstCode(f, from)
    case None =>
    case Some(code) =>
      var s := code.index + code.len;
      var e := NalEnd(f, s);
      NalsFromClean(f, e);
      FirstCodeIsEarliest(f, s);
      assert forall i: nat :: Code3(f[s..e], i) ==> CodeAt(f, s + i);
  }

  /** What a non-last NAL loses when a three-byte start code follows it: one trailing zero. */
  function TrimZero(nal: seq<byte>): seq<byte> {
    if nal != [] && nal[|nal| - 1] == 0 then nal[..|nal| - 1] else nal
  }

  ghost predicate EndsInZero(nal: seq<byte>) {
    nal != [] && nal[|nal| - 1] == 0
  }

  /** What a reread makes of the first of several NAL units. */
  function RereadHead(nal: seq<byte>, rest: nat): seq<byte> {
    if rest == 3 then TrimZero(nal) else nal
  }

  /** The NAL list that a reader finds after `rest`-byte start codes were put between `nals`. */
  function Reread(nals: seq<seq<byte>>, rest: nat): seq<seq<byte>> {
    if nals == [] then []
    else if |nals| == 1 then nals
    else
      var head := RereadHead(nals[0], rest);
      (if head == [] then [] else [head]) + Reread(nals[1..], rest)
  }

  /** The first start code in `nal + code`, for a clean `nal`. */
  lemma {:induction false} FirstCodeAfterClean(nal: seq<byte>, g: seq<byte>, rest: nat)
    requires Clean(nal) && rest in {3, 4}
    requires Code(rest) <= g
    ensures FirstCode(nal + g, 0) ==
            if rest == 3 && EndsInZero(nal) then Some(StartCode(|nal| - 1, 4)) else Some(StartCode(|nal|, rest))
  {
    var f := nal + g;
    var at := if rest == 3 && EndsInZero(nal) then |nal| - 1 else |nal|;
    assert g[..|Code(rest)|] == Code(rest);
    assert forall k | 0 <= k < |Code(rest)| :: f[|nal| + k] == Code(rest)[k];
    assert CodeAt(f, at);
    forall i: nat | i < at ensures !CodeAt(f, i) {
      assert Code3(f, i) && i + 3 <= |nal| ==> Code3(nal, i);
      assert Code4(f, i) && i + 4 <= |nal| ==> Code3(nal, i + 1);
    }
    FirstCodeIsEarliest(f, 0);
  }

  lemma {:induction false} FirstCodeNoneInClean(nal: seq<byte>)
    requires Clean(nal)
    ensures FirstCode(nal, 0) == None
  {
    FirstCodeIsEarliest(nal, 0);
    assert forall i: nat :: Code4(nal, i) ==> Code3(nal, i + 1);
  }

  /** Searching again from a found start code finds it again. */
  lemma {:induction false} FirstCodeFrom(f: seq<byte>, from: nat, e: nat)
    requires FirstCode(f, from).Some? && FirstCode(f, from).value.index == e
    ensures FirstCode(f, e) == FirstCode(f, from)
    decreases |f| - from
  {
    if !CodeAt(f, from) {
      FirstCodeFrom(f, from + 1, e);
    }
  }

  /** Reading on from a found start code is reading what follows it. */
  lemma NalsFromCode(f: seq<byte>, e: nat, len: nat)
    requires FirstCode(f, 0) == Some(StartCode(e, len))
    ensures NalsFrom(f, e) == NalsAfter(f, e + len)
  {
    FirstCodeFrom(f, 0, e);
  }

  /** Reading from the beginning of a NAL unit that a start code ends. */
  lemma {:induction false} NalsAfterFirst(f: seq<byte>, e: nat, len: nat)
    requires FirstCode(f, 0) == Some(StartCode(e, len))
    ensures NalsAfter(f, 0) == (if e == 0 then [] else [f[..e]]) + NalsAfter(f, e + len)
  {
    NalsFromCode(f, e, len);
    assert f[0..e] == f[..e];
  }

  /** One NAL unit is read back; what follows it is read as if on its own. */
  lemma {:induction false} ReadOne(nal: seq<byte>, tail: seq<byte>, rest: nat)
    requires Clean(nal) && rest in {3, 4}
    ensures NalsAfter(nal + (Code(rest) + tail), 0) ==
            (var head := RereadHead(nal, rest);
             if head == [] then [] else [head]) + NalsAfter(tail, 0)
  {
    var body := nal + (Code(rest) + tail);
    FirstCodeAfterClean(nal, Code(rest) + tail, rest);
    var code := FirstCode(body, 0).value;
    NalsAfterFirst(body, code.index, code.len);
    Assoc(nal, Code(rest), tail);
    NalsAfterShift(nal + Code(rest), tail, 0);
    assert body[..code.index] == RereadHead(nal, rest);
  }

  lemma {:induction false} ReadLast(nal: seq<byte>)
    requires Clean(nal)
    ensures NalsAfter(nal, 0) == [nal]
  {
    FirstCodeNoneInClean(nal);
    assert nal[0..|nal|] == nal;
  }

  /** The bytes after the first start code of a join. */
  function JoinTail(nals: seq<seq<byte>>, rest: nat): seq<byte>
    requires nals != []
  {
    nals[0] + Join(nals[1..], rest, rest)
  }

  lemma {:induction false} JoinTailOfMore(nals: seq<seq<byte>>, rest: nat)
    requires |nals| > 1 && rest in {3, 4}
    ensures JoinTail(nals, rest) == nals[0] + (Code(rest) + JoinTail(nals[1..], rest))
  {
    Assoc(Code(rest), nals[1..][0], Join(nals[1..][1..], rest, rest));
  }

  lemma {:induction false} JoinTailReread(nals: seq<seq<byte>>, rest: nat)
    requires nals != [] && AllClean(nals) && rest in {3, 4}
    ensures NalsAfter(JoinTail(nals, rest), 0) == Reread(nals, rest)
  {
    if |nals| == 1 {
      assert JoinTail(nals, rest) == nals[0];
      ReadLast(nals[0]);
    } else {
      JoinTailReread(nals[1..], rest);
      JoinTailOfMore(nals, rest);
      ReadOne(nals[0], JoinTail(nals[1..], rest), rest);
    }
  }

  /** Reading a frame that begins with a start code. */
  lemma {:induction false} NalsBehindCode(len: nat, tail: seq<byte>)
    requires len in {3, 4}
    ensures Nals(Code(len) + tail) == NalsAfter(tail, 0)
  {
    var f := Code(len) + tail;
    assert CodeAt(f, 0) && FirstCode(f, 0) == Some(StartCode(0, len));
    NalsAfterShift(Code(len), tail, 0);
  }

  lemma {:induction false} JoinReread(nals: seq<seq<byte>>, first: nat, rest: nat)
    requires AllClean(nals) && first in {3, 4} && rest in {3, 4}
    ensures Nals(Join(nals, first, rest)) == Reread(nals, rest)
  {
    if nals != [] {
      Assoc(Code(first), nals[0], Join(nals[1..], rest, rest));
      NalsBehindCode(first, JoinTail(nals, rest));
      JoinTailReread(nals, rest);
    }
  }

  ghost predicate OnlyLastEndsInZero(nals: seq<seq<byte>>) {
    forall k | 0 <= k < |nals| - 1 :: !EndsInZero(nals[k])
  }

  lemma {:induction false} OnlyLastEndsInZeroCons(nals: seq<seq<byte>>)
    requires |nals| >= 2
    ensures OnlyLastEndsInZero(nals) <==> !EndsInZero(nals[0]) && OnlyLastEndsInZero(nals[1..])
  {
    assert forall k | 0 <= k < |nals| - 2 :: nals[1..][k] == nals[k + 1];
    assert forall k | 1 <= k < |nals| - 1 :: nals[k] == nals[1..][k - 1];
  }

  lemma {:induction false} TotalBytesCons(head: seq<byte>, tail: seq<seq<byte>>)
    ensures TotalBytes([head] + tail) == |head| + TotalBytes(tail)
  {
    assert ([head] + tail)[1..] == tail;
  }

  lemma {:induction false} RereadHeadShrinks(nal: seq<byte>, rest: nat)
    requires nal != []
    ensures if rest == 3 && EndsInZero(nal) then |RereadHead(nal, rest)| < |nal| else RereadHead(nal, rest) == nal
  {
  }

  lemma {:induction false} RereadFirst(nals: seq<seq<byte>>, rest: nat)
    requires |nals| >= 2
    ensures var (head, tail) := (RereadHead(nals[0], rest), Reread(nals[1..], rest));
            && (head == [] ==> Reread(nals, rest) == tail)
            && (head != [] ==> Reread(nals, rest) == [head] + tail)
            && TotalBytes(Reread(nals, rest)) == |head| + TotalBytes(tail)
  {
    var (head, tail) := (RereadHead(nals[0], rest), Reread(nals[1..], rest));
    if head == [] {
      assert [] + tail == tail;
    } else {
      TotalBytesCons(head, tail);
    }
  }

  lemma {:induction false} RereadBytes(nals: seq<seq<byte>>, rest: nat)
    requires AllClean(nals)
    ensures rest != 3 || OnlyLastEndsInZero(nals) ==> Reread(nals, rest) == nals
    ensures TotalBytes(Reread(nals, rest)) <= TotalBytes(nals)
    ensures |Reread(nals, rest)| <= |nals| && (nals != [] ==> Reread(nals, rest) != [])
    ensures rest == 3 && !OnlyLastEndsInZero(nals) ==> TotalBytes(Reread(nals, rest)) < TotalBytes(nals)
  {
    if |nals| >= 2 {
      RereadBytes(nals[1..], rest);
      OnlyLastEndsInZeroCons(nals);
      RereadFirst(nals, rest);
      assert Clean(nals[0]);
      RereadHeadShrinks(nals[0], rest);
      assert nals == [nals[0]] + nals[1..];
    }
  }

  /** Joining with four-byte start codes loses nothing: every list of clean NAL units is read back. */
  lemma {:induction false} SplitJoin4(nals: seq<seq<byte>>)
    requires AllClean(nals)
    ensures Nals(Join4(nals)) == nals
  {
    JoinReread(nals, 4, 4);
    RereadBytes(nals, 4);
  }

  /** Splitting gives clean NAL units, so splitting and four-byte joining are inverse to each other. */
  lemma {:induction false} JoinSplit4(f: seq<byte>)
    ensures AllClean(Nals(f))
    ensures Nals(Join4(Nals(f))) == Nals(f)
  {
    NalsFromClean(f, 0);
    SplitJoin4(Nals(f));
  }

  /** The length asked for inner start codes does not matter to a frame without any. */
  lemma {:induction false} OneNalHasNoInnerCode(f: seq<byte>, first: nat, rest: nat)
    requires |Nals(f)| == 1 && first in {3, 4}
    ensures Rewrite(f, first, rest) == Some(Code(first) + Nals(f)[0])
  {
    var nals := Nals(f);
    assert nals[1..] == [] && Join(nals[1..], rest, rest) == [];
    assert Join(nals, first, rest) == Code(first) + nals[0] + [];
    assert Code(first) + nals[0] + [] == Code(first) + nals[0];
  }

  /** A rewrite keeps the NAL list exactly when its inner start codes have four bytes or no NAL but
      the last ends in a zero byte. */
  lemma {:induction false} RewriteKeepsNalsIff(f: seq<byte>, first: nat, rest: nat)
    requires first in {3, 4} && rest in {3, 4} && Nals(f) != []
    ensures Rewrite(f, first, rest).Some?
    ensures Nals(Rewrite(f, first, rest).value) == Nals(f) <==> rest == 4 || OnlyLastEndsInZero(Nals(f))
  {
    NalsFromClean(f, 0);
    JoinReread(Nals(f), first, rest);
    RereadBytes(Nals(f), rest);
  }

  lemma {:induction false} RereadPair(a: seq<byte>, b: seq<byte>)
    requires TrimZero(a) != []
    ensures Reread([a, b], 3) == [TrimZero(a), b]
  {
    assert [a, b][1..] == [b] && Reread([b], 3) == [b];
  }

  /** A failing input: a parameter set that ends in a zero byte, before another NAL unit. */
  lemma {:induction false} ThreeByteRewriteLoses()
    ensures var f := Join4([[0x67, 0], [0x68]]);
            && Nals(f) == [[0x67, 0], [0x68]]
            && Nals(Rewrite(f, 4, 3).value) == [[0x67], [0x68]]
  {
    var a: seq<byte>, b: seq<byte> := [0x67, 0], [0x68];
    SplitJoin4([a, b]);
    JoinReread([a, b], 4, 3);
    assert TrimZero(a) == [0x67];
    RereadPair(a, b);
  }

  lemma {:induction false} JoinLength(nals: seq<seq<byte>>, first: nat, rest: nat)
    requires nals != [] && first in {3, 4} && rest in {3, 4}
    ensures |Join(nals, first, rest)| == first + rest * (|nals| - 1) + TotalBytes(nals)
  {
    if |nals| > 1 {
      JoinLength(nals[1..], rest, rest);
    }
  }

  /** Rewriting twice is rewriting once under the same condition; otherwise the frame shrinks again. */
  lemma {:induction false} RewriteIdempotentIff(f: seq<byte>, first: nat, rest: nat)
    requires first in {3, 4} && rest in {3, 4} && Nals(f) != []
    ensures var g := Rewrite(f, first, rest).value;
            && Nals(g) != []
            && (Rewrite(g, first, rest) == Some(g) <==> rest == 4 || OnlyLastEndsInZero(Nals(f)))
            && |Rewrite(g, first, rest).value| <= |g|
  {
    NalsFromClean(f, 0);
    RewriteKeepsNalsIff(f, first, rest);
    JoinReread(Nals(f), first, rest);
    RereadBytes(Nals(f), rest);
    JoinLength(Nals(f), first, rest);
    JoinLength(Reread(Nals(f), rest), first, rest);
  }
}
