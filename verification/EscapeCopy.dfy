/** The stream copier with detach keys (container/container.go, copyEscapable). */
module EscapeCopy {
  import opened Wrappers

  type byte = x: int | 0 <= x < 256

  datatype End = More | EOF | Failed

  /** One Read call: the bytes it delivered and the error it returned with them. */
  datatype Read = Read(data: seq<byte>, end: End)

  /** A source is the list of its future reads, then end of file for ever. */
  class Source {
    const input: seq<Read>
    var pos: nat
    var closed: bool

    constructor (input: seq<Read>)
      ensures this.input == input && pos == 0 && !closed
    {
      this.input, pos, closed := input, 0, false;
    }

    method Next() returns (r: Read)
      requires pos <= |input|
      modifies this`pos
      ensures r == At(input, old(pos))
      ensures pos == if old(pos) < |input| then old(pos) + 1 else old(pos)
    {
      if pos == |input| {
        return Read([], EOF);
      }
      r := input[pos];
      pos := pos + 1;
    }
  }

  function At(input: seq<Read>, i: nat): Read {
    if i < |input| then input[i] else Read([], EOF)
  }

  /** What a Write call does: take everything, or stop after n bytes, with or without an error. */
  datatype Write = Full | Short(n: nat, failed: bool)

  class Sink {
    const writes: seq<Write>
    var calls: nat
    var out: seq<byte>

    constructor (writes: seq<Write>)
      ensures this.writes == writes && calls == 0 && out == []
    {
      this.writes, calls, out := writes, 0, [];
    }

    method Put(data: seq<byte>) returns (n: nat, failed: bool)
      modifies this
      ensures n <= |data| && out == old(out) + data[..n]
      ensures Reliable() ==> n == |data| && !failed
    {
      var w := if calls < |writes| then writes[calls] else Full;
      assert w == Full || w in writes;
      calls := calls + 1;
      match w {
        case Full => n, failed := |data|, false;
        case Short(k, f) => n, failed := if k < |data| then k else |data|, f;
      }
      out := out + data[..n];
    }

    /** No write ever fails or falls short. */
    ghost predicate Reliable()
    {
      forall w :: w in writes ==> w == Full
    }
  }

  datatype Outcome = Finished | Detached | ReadFailed | WriteFailed | ShortWrite

  /** All bytes of reads i..j. */
  function Bytes(input: seq<Read>, i: nat, j: nat): seq<byte>
    requires i <= j <= |input|
    decreases j - i
  {
    if i == j then [] else Bytes(input, i, j - 1) + input[j - 1].data
  }

  lemma {:induction false} BytesJoin(input: seq<Read>, i: nat, j: nat, k: nat)
    requires i <= j <= k <= |input|
    ensures Bytes(input, i, k) == Bytes(input, i, j) + Bytes(input, j, k)
    decreases k
  {
    if j < k {
      BytesJoin(input, i, j, k - 1);
    }
  }

  const DEFAULT_KEYS: seq<byte> := [16, 17]

  /** The keys that detach: those the user chose, or ctrl-p, ctrl-q. */
  function EffectiveKeys(keys: seq<byte>): (ks: seq<byte>)
    ensures ks != [] && (keys != [] ==> ks == keys) && (keys == [] ==> ks == [16, 17])
  {
    if |keys| == 0 then DEFAULT_KEYS else keys
  }

  /** Reads i..i+n are the first n keys, each arriving alone. */
  ghost predicate KeysAt(input: seq<Read>, keys: seq<byte>, i: nat, n: nat) {
    && n <= |keys| && i + n <= |input|
    && forall j :: 0 <= j < n ==> input[i + j].data == [keys[j]]
  }

  lemma {:induction false} KeysBytes(input: seq<Read>, keys: seq<byte>, i: nat, n: nat)
    requires KeysAt(input, keys, i, n)
    ensures Bytes(input, i, i + n) == keys[..n]
    decreases n
  {
    if n > 0 {
      KeysBytes(input, keys, i, n - 1);
      assert input[i + (n - 1)].data == [keys[n - 1]];
    }
  }

  // ---------------------------------------------------------------- when the copier detaches

  /** How many reads from i on are the keys in order. */
  function Matched(input: seq<Read>, keys: seq<byte>, i: nat, n: nat): (m: nat)
    requires n <= |keys|
    ensures n <= m <= |keys|
    decreases |keys| - n
  {
    if n < |keys| && At(input, i + n).data == [keys[n]] then Matched(input, keys, i, n + 1) else n
  }

  /** Attempts start at the first read and after every failed attempt, whose last read is the one that
      did not match; the copier detaches exactly when some attempt gets all keys. */
  predicate Detaches(input: seq<Read>, keys: seq<byte>, i: nat)
    requires keys != []
    decreases |input| - i
  {
    i < |input| &&
    if input[i].data == [] then
      input[i].end == More && Detaches(input, keys, i + 1)
    else
      var m := Matched(input, keys, i, 0);
      m == |keys| || (i + m < |input| && input[i + m].end == More && Detaches(input, keys, i + m + 1))
  }

  /** An attempt swallows the read that broke it, even if that read is the first key: typed as single
      bytes, P P Q does not detach although P Q was typed. */
  lemma RepeatedFirstKeyIsMissed(p: byte, q: byte)
    requires p != q
    ensures var input := [Read([p], More), Read([p], More), Read([q], More)];
            KeysAt(input, [p, q], 1, 2) && !Detaches(input, [p, q], 0)
  {
    var input := [Read([p], More), Read([p], More), Read([q], More)];
    var keys := [p, q];
    assert Matched(input, keys, 0, 1) == 1;
    assert Matched(input, keys, 0, 0) == 1;
    assert Matched(input, keys, 2, 0) == 0;
    assert !Detaches(input, keys, 3);
    assert !Detaches(input, keys, 2);
  }

  lemma {:induction false} MatchedAll(input: seq<Read>, keys: seq<byte>, i: nat, n: nat)
    requires KeysAt(input, keys, i, |keys|) && n <= |keys|
    ensures Matched(input, keys, i, n) == |keys|
    decreases |keys| - n
  {
    if n < |keys| {
      assert input[i + n].data == [keys[n]];
      MatchedAll(input, keys, i, n + 1);
    }
  }

  /** Keys that are not preceded by a stray first key do detach. */
  lemma {:induction false} CleanKeysDetach(input: seq<Read>, keys: seq<byte>, i: nat, j: nat)
    requires keys != [] && i <= j && KeysAt(input, keys, j, |keys|)
    requires forall k :: i <= k < j ==> input[k].data != [keys[0]] && input[k].end == More
    ensures Detaches(input, keys, i)
    decreases j - i
  {
    if i == j {
      MatchedAll(input, keys, i, 0);
      assert input[j + 0].data == [keys[0]];
    } else {
      CleanKeysDetach(input, keys, i + 1, j);
      assert Matched(input, keys, i, 0) == 0;
    }
  }

  /** Reads a..b are the first key alone, as many as there are together from a on, an odd number of them,
      and the second key alone comes next. */
  ghost predicate OddRunAt(input: seq<Read>, p: byte, q: byte, from: nat, a: nat, b: nat) {
    && from <= a < b < |input| && (b - a) % 2 == 1
    && (a == from || input[a - 1].data != [p])
    && (forall k :: a <= k < b ==> input[k].data == [p])
    && input[b].data == [q]
  }

  ghost predicate OddRun(input: seq<Read>, p: byte, q: byte, from: nat) {
    exists a: nat, b: nat :: OddRunAt(input, p, q, from, a, b)
  }

  /** A read that is not the first key changes nothing. */
  lemma OddRunSkipsOne(input: seq<Read>, p: byte, q: byte, i: nat)
    requires i < |input| && input[i].data != [p]
    ensures OddRun(input, p, q, i) <==> OddRun(input, p, q, i + 1)
  {
    if OddRun(input, p, q, i) {
      var a: nat, b: nat :| OddRunAt(input, p, q, i, a, b);
      assert a != i;
      assert OddRunAt(input, p, q, i + 1, a, b);
    }
    if OddRun(input, p, q, i + 1) {
      var a: nat, b: nat :| OddRunAt(input, p, q, i + 1, a, b);
      assert OddRunAt(input, p, q, i, a, b);
    }
  }

  /** Nor do the first key and a read after it that is not the second: two first keys keep the parity. */
  lemma OddRunSkipsTwo(input: seq<Read>, p: byte, q: byte, i: nat)
    requires p != q && i + 1 < |input| && input[i].data == [p] && input[i + 1].data != [q]
    ensures OddRun(input, p, q, i) <==> OddRun(input, p, q, i + 2)
  {
    if OddRun(input, p, q, i) {
      var a: nat, b: nat :| OddRunAt(input, p, q, i, a, b);
      if a == i {
        assert b >= i + 3;
        assert OddRunAt(input, p, q, i + 2, i + 2, b);
      } else {
        assert input[a - 1].data != [p];
        assert a != i + 1;
        assert input[a].data == [p];
        assert OddRunAt(input, p, q, i + 2, a, b);
      }
    }
    if OddRun(input, p, q, i + 2) {
      var a: nat, b: nat :| OddRunAt(input, p, q, i + 2, a, b);
      if a == i + 2 && input[i + 1].data == [p] {
        assert OddRunAt(input, p, q, i, i, b);
      } else {
        assert OddRunAt(input, p, q, i, a, b);
      }
    }
  }

  /** Two different keys are recognised exactly when an odd run of the first is followed by the second. */
  lemma {:induction false} DetachesIffOddRun(input: seq<Read>, p: byte, q: byte, i: nat)
    requires p != q && i <= |input|
    requires forall k :: 0 <= k < |input| - 1 ==> input[k].end == More
    ensures Detaches(input, [p, q], i) <==> OddRun(input, p, q, i)
    decreases |input| - i
  {
    var keys := [p, q];
    hide OddRun;
    if i == |input| {
      NoRunAtEnd(input, p, q, i);
    } else if input[i].data != [p] {
      assert Matched(input, keys, i, 0) == 0;
      OddRunSkipsOne(input, p, q, i);
      DetachesIffOddRun(input, p, q, i + 1);
    } else if i + 1 == |input| {
      assert Matched(input, keys, i, 1) == 1 && Matched(input, keys, i, 0) == 1;
      NoRunAtEnd(input, p, q, i);
    } else if input[i + 1].data == [q] {
      assert Matched(input, keys, i, 2) == 2 && Matched(input, keys, i, 1) == 2 && Matched(input, keys, i, 0) == 2;
      assert OddRun(input, p, q, i) by { assert OddRunAt(input, p, q, i, i, i + 1); RunIs(input, p, q, i, i, i + 1); }
    } else {
      assert Matched(input, keys, i, 1) == 1 && Matched(input, keys, i, 0) == 1;
      OddRunSkipsTwo(input, p, q, i);
      DetachesIffOddRun(input, p, q, i + 2);
    }
  }

  lemma RunIs(input: seq<Read>, p: byte, q: byte, from: nat, a: nat, b: nat)
    requires OddRunAt(input, p, q, from, a, b)
    ensures OddRun(input, p, q, from)
  {
  }

  lemma NoRunAtEnd(input: seq<Read>, p: byte, q: byte, i: nat)
    requires i + 1 >= |input|
    ensures !OddRun(input, p, q, i)
  {
  }

  /** The recogniser the copier amounts to: it counts the keys matched so far, and a read that is not the
      next key alone sets it back to none, even if that read is the first key. */
  predicate Recognises(input: seq<Read>, keys: seq<byte>, j: nat, matched: nat)
    requires matched < |keys|
    decreases |input| - j
  {
    j < |input| &&
    if input[j].data == [keys[matched]] then matched + 1 == |keys| || Recognises(input, keys, j + 1, matched + 1)
    else Recognises(input, keys, j + 1, 0)
  }

  lemma {:induction false} MatchedSoFar(input: seq<Read>, keys: seq<byte>, i: nat, n: nat)
    requires KeysAt(input, keys, i, n)
    ensures Matched(input, keys, i, 0) == Matched(input, keys, i, n)
    decreases n
  {
    if n > 0 {
      MatchedSoFar(input, keys, i, n - 1);
      assert input[i + (n - 1)].data == [keys[n - 1]];
    }
  }

  /** For any keys, equal ones too, the copier detaches exactly on the streams this recogniser accepts. */
  lemma {:induction false} DetachesIffRecognised(input: seq<Read>, keys: seq<byte>, i: nat, n: nat)
    requires n < |keys| && i + n <= |input| && KeysAt(input, keys, i, n)
    requires forall k :: 0 <= k < |input| - 1 ==> input[k].end == More
    ensures Detaches(input, keys, i) <==> Recognises(input, keys, i + n, n)
    decreases |input| - i - n
  {
    var j := i + n;
    MatchedSoFar(input, keys, i, n);
    if n > 0 { assert input[i + 0].data == [keys[0]]; }
    if j < |input| {
      if input[j].data == [keys[n]] {
        if n + 1 < |keys| {
          assert forall k :: 0 <= k < n + 1 ==> input[i + k].data == [keys[k]];
          DetachesIffRecognised(input, keys, i, n + 1);
        } else {
          assert Matched(input, keys, i, n) == n + 1;
        }
      } else {
        assert Matched(input, keys, i, n) == n;
        DetachesIffRecognised(input, keys, j + 1, 0);
      }
    }
  }

  /** A key that has to be typed twice is recognised exactly when two reads in a row are that key. */
  lemma DetachesIffTwice(input: seq<Read>, p: byte, i: nat)
    requires i <= |input| && forall k :: 0 <= k < |input| - 1 ==> input[k].end == More
    ensures Detaches(input, [p, p], i) <==> exists j :: i <= j < |input| - 1 && input[j].data == [p] && input[j + 1].data == [p]
  {
    DetachesIffRecognised(input, [p, p], i, 0);
    TwiceFrom(input, p, i, 0);
  }

  lemma {:induction false} TwiceFrom(input: seq<Read>, p: byte, i: nat, matched: nat)
    requires i <= |input| && matched < 2
    ensures Recognises(input, [p, p], i, matched) <==>
            || (matched == 1 && i < |input| && input[i].data == [p])
            || exists j :: i <= j < |input| - 1 && input[j].data == [p] && input[j + 1].data == [p]
    decreases |input| - i
  {
    if i < |input| {
      TwiceFrom(input, p, i + 1, if input[i].data == [p] && matched == 0 then 1 else 0);
      if j :| i <= j < |input| - 1 && input[j].data == [p] && input[j + 1].data == [p] {
        assert j > i ==> exists k :: i + 1 <= k < |input| - 1 && input[k].data == [p] && input[k + 1].data == [p];
      }
    }
  }

  // ---------------------------------------------------------------- the copier

  /** The read delivered one of the keys and nothing else. */
  predicate KeyAlone(r: Read, keys: seq<byte>) {
    |r.data| == 1 && r.data[0] in keys
  }

  /** One attempt: read while the keys match. `kept` is everything read since the attempt began. */
  method Attempt(src: Source, keys: seq<byte>, first: Read) returns (kept: seq<byte>, last: Read, detach: bool, ghost at: nat)
    requires keys != [] && 0 < src.pos <= |src.input| && first == src.input[src.pos - 1] && first.data != []
    modifies src`pos
    ensures old(src.pos) <= src.pos <= |src.input|
    ensures at == Matched(src.input, keys, old(src.pos) - 1, 0) && (detach <==> at == |keys|)
    ensures !detach ==>
              && kept == Bytes(src.input, old(src.pos) - 1, src.pos)
              && last == At(src.input, old(src.pos) - 1 + at)
              && src.pos == if old(src.pos) - 1 + at < |src.input| then old(src.pos) + at else |src.input|
    ensures KeysAt(src.input, keys, old(src.pos) - 1, at)
    ensures detach ==> src.pos == old(src.pos) - 1 + |keys|
  {
    ghost var start := src.pos - 1;
    var i := 0;
    last := first;
    kept := last.data;
    while last.data == [keys[i]] && i != |keys| - 1
      invariant i < |keys| && KeysAt(src.input, keys, start, i)
      invariant src.pos == if start + i < |src.input| then start + i + 1 else |src.input|
      invariant last == At(src.input, start + i)
      invariant kept == Bytes(src.input, start, src.pos)
      invariant Matched(src.input, keys, start, 0) == Matched(src.input, keys, start, i)
      invariant old(src.pos) <= src.pos
      decreases |keys| - i
    {
      last := src.Next();
      kept := kept + last.data;
      i := i + 1;
    }
    detach := last.data == [keys[i]];
    at := if detach then |keys| else i;
  }

  /** copyEscapable. Nothing read is lost, added or reordered: without a detach the sink has received
      all bytes of all input, or a prefix of them when a write fails; on a detach it has received all
      but the final keys, which arrived alone. A read error is passed over only when its read delivered
      one of the keys alone. */
  method CopyEscapable(dst: Sink, src: Source, keys: seq<byte>) returns (written: nat, outcome: Outcome)
    requires src.pos <= |src.input|
    modifies dst, src
    ensures old(src.pos) <= src.pos <= |src.input|
    ensures outcome in {Finished, ReadFailed} ==>
              && dst.out == old(dst.out) + Bytes(src.input, old(src.pos), src.pos)
              && written == |Bytes(src.input, old(src.pos), src.pos)|
    ensures outcome == Finished ==> src.pos == |src.input| || (src.pos > old(src.pos) && src.input[src.pos - 1].end == EOF)
    ensures outcome == ReadFailed ==> src.pos > old(src.pos) && src.input[src.pos - 1].end == Failed
    ensures outcome == Detached ==>
              && written == 0 && src.closed
              && dst.out + EffectiveKeys(keys) == old(dst.out) + Bytes(src.input, old(src.pos), src.pos)
              && |EffectiveKeys(keys)| <= src.pos - old(src.pos)
              && KeysAt(src.input, EffectiveKeys(keys), src.pos - |EffectiveKeys(keys)|, |EffectiveKeys(keys)|)
    ensures outcome != Detached ==> written == |dst.out| - |old(dst.out)|
    ensures outcome in {WriteFailed, ShortWrite} ==>
              !dst.Reliable() && dst.out <= old(dst.out) + Bytes(src.input, old(src.pos), src.pos)
    ensures dst.Reliable() ==>
              (outcome == Detached <==> Detaches(src.input, if keys == [] then [16, 17] else keys, old(src.pos)))
    ensures forall k :: old(src.pos) <= k < src.pos - 1 ==> src.input[k].end == More || KeyAlone(src.input[k], EffectiveKeys(keys))
  {
    hide KeyAlone, Detaches, KeysAt, Bytes;
    written := 0;
    var ks := EffectiveKeys(keys);
    ghost var from := src.pos;
    NoBytes(src.input, from);
    while true
      invariant from <= src.pos <= |src.input|
      invariant dst.out == old(dst.out) + Bytes(src.input, from, src.pos)
      invariant written == |Bytes(src.input, from, src.pos)| == |dst.out| - |old(dst.out)|
      invariant Detaches(src.input, ks, from) == Detaches(src.input, ks, src.pos)
      invariant forall k :: from <= k < src.pos ==> src.input[k].end == More || KeyAlone(src.input[k], ks)
      decreases |src.input| - src.pos
    {
      ghost var start := src.pos;
      var n, stop := CopyRound(dst, src, ks);
      BytesJoin(src.input, from, start, src.pos);
      written := written + n;
      if stop.Some? {
        outcome := stop.value;
        if outcome == Detached {
          written := 0;
        }
        return;
      }
    }
  }

  lemma NoBytes(input: seq<Read>, i: nat)
    requires i <= |input|
    ensures Bytes(input, i, i) == []
  {
  }

  /** One turn of the copy loop: a read, an attempt at the keys, a write, and the error checks. */
  method CopyRound(dst: Sink, src: Source, ks: seq<byte>) returns (n: nat, stop: Option<Outcome>)
    requires ks != [] && src.pos <= |src.input|
    modifies dst, src
    ensures old(src.pos) <= src.pos <= |src.input|
    ensures forall k :: old(src.pos) <= k < src.pos - 1 ==> src.input[k].end == More || KeyAlone(src.input[k], ks)
    ensures var bytes, start := Bytes(src.input, old(src.pos), src.pos), old(src.pos);
            match stop
            case None =>
              && src.pos > start && src.input[src.pos - 1].end == More && dst.out == old(dst.out) + bytes && n == |bytes|
              && Detaches(src.input, ks, start) == Detaches(src.input, ks, src.pos)
            case Some(Detached) =>
              && src.closed && Detaches(src.input, ks, start) && dst.out + ks == old(dst.out) + bytes
              && |ks| <= src.pos - start && KeysAt(src.input, ks, src.pos - |ks|, |ks|)
            case Some(Finished) =>
              && dst.out == old(dst.out) + bytes && n == |bytes| && !Detaches(src.input, ks, start)
              && (src.pos == |src.input| || (src.pos > start && src.input[src.pos - 1].end == EOF))
            case Some(ReadFailed) =>
              && dst.out == old(dst.out) + bytes && n == |bytes| && !Detaches(src.input, ks, start)
              && src.pos > start && src.input[src.pos - 1].end == Failed
            case _ => !dst.Reliable() && dst.out <= old(dst.out) + bytes && n == |dst.out| - |old(dst.out)|
  {
    hide KeyAlone, KeysAt, Matched;
    ghost var start := src.pos;
    var r := src.Next();
    n := 0;
    if |r.data| > 0 {
      var kept, last, detach, at := Attempt(src, ks, r);
      if detach {
        src.closed := true;
        KeysBytes(src.input, ks, start, |ks|);
        assert ks[..|ks|] == ks;
        SinglesOnly(src.input, ks, start, at);
        return 0, Some(Detached);
      }
      SinglesOnly(src.input, ks, start, at);
      r := last;
      var nw, failed := dst.Put(kept);
      n := nw;
      if failed {
        return n, Some(WriteFailed);
      }
      if |kept| != n {
        return n, Some(ShortWrite);
      }
      assert kept[..n] == kept;
    } else {
      assert Bytes(src.input, start, src.pos) == [];
      assert dst.out == dst.out + [];
    }
    if r.end == EOF {
      return n, Some(Finished);
    }
    if r.end != More {
      return n, Some(ReadFailed);
    }
    return n, None;
  }

  lemma SinglesOnly(input: seq<Read>, keys: seq<byte>, i: nat, n: nat)
    requires KeysAt(input, keys, i, n)
    ensures forall k :: i <= k < i + n ==> KeyAlone(input[k], keys)
  {
    forall k | i <= k < i + n ensures KeyAlone(input[k], keys) {
      assert input[i + (k - i)].data == [keys[k - i]];
    }
  }
}
