/** The growing string buffer of the database reader. */
module StringBuffer {
  import opened Basics

  function Pow2(k: nat): (r: nat)
    ensures r > 0
  {
    if k == 0 then 1 else 2 * Pow2(k - 1)
  }

  const FIRST := 1024

  ghost predicate Capacity(c: nat) { exists k: nat :: c == FIRST * Pow2(k) }

  lemma Doubled(c: nat)
    requires Capacity(c)
    ensures Capacity(2 * c) && c >= FIRST
  {
    var k: nat :| c == FIRST * Pow2(k);
    assert 2 * c == FIRST * Pow2(k + 1);
  }

  lemma FirstCapacity()
    ensures Capacity(FIRST)
  {
    assert FIRST == FIRST * Pow2(0);
  }

  function Max(a: nat, b: nat): nat { if a < b then b else a }

  /** What the allocator will answer, and how often it has refused so far. When the plan is exhausted it grants. */
  datatype Heap = Heap(plan: seq<bool>, refused: nat) {
    predicate Grants() { plan == [] || plan[0] }

    function After(): Heap {
      Heap(if plan == [] then [] else plan[1..], if Grants() then refused else refused + 1)
    }

    predicate Ample() { false !in plan }
  }

  class Memory {
    var heap: Heap

    constructor (plan: seq<bool>)
      ensures heap == Heap(plan, 0)
    {
      heap := Heap(plan, 0);
    }

    method Grant() returns (ok: bool)
      modifies this
      ensures ok == old(heap).Grants() && heap == old(heap).After()
    {
      ok := heap.Grants();
      heap := heap.After();
    }
  }

  /** A buffer's contents and capacity, and the allocator it grows with. */
  datatype Buf = Buf(text: string, cap: nat, heap: Heap)

  datatype Result = Result(ok: bool, buf: Buf)

  /** cap doubled until it is at least need. */
  function Grown(cap: nat, need: nat): (r: nat)
    requires cap > 0
    ensures need <= r && cap <= r && (cap < need ==> 2 * cap <= r)
    decreases need - cap
  {
    if cap >= need then cap else Grown(2 * cap, need)
  }

  /** Appending asks for memory only when the capacity does not suffice; when refused it leaves the buffer as it is. */
  function AppendTo(b: Buf, s: string): (r: Result)
    ensures r.buf.text == if r.ok then b.text + s else b.text
    ensures r.buf.heap.refused == if r.ok then b.heap.refused else b.heap.refused + 1
    ensures b.heap.Ample() ==> r.ok && r.buf.heap.Ample()
  {
    var need := |b.text| + |s| + 1;
    if need <= b.cap then Result(true, b.(text := b.text + s))
    else if b.heap.Grants() then
      Result(true, Buf(b.text + s, Grown(if b.cap > 0 then b.cap else FIRST, need), b.heap.After()))
    else Result(false, b.(heap := b.heap.After()))
  }

  /** Formatted text of 512 characters or more is first put into a heap buffer of its own. */
  function AppendFormattedTo(b: Buf, text: string): (r: Result)
    ensures r.buf.text == if r.ok then b.text + text else b.text
    ensures r.buf.heap.refused == if r.ok then b.heap.refused else b.heap.refused + 1
    ensures b.heap.Ample() ==> r.ok && r.buf.heap.Ample()
  {
    if |text| < 512 then AppendTo(b, text)
    else if b.heap.Grants() then AppendTo(b.(heap := b.heap.After()), text)
    else Result(false, b.(heap := b.heap.After()))
  }

  /** The sizes at which requests are made: a new buffer has 1024 bytes, one of them for the NUL, the next one twice as
      many; and formatted text needs a request of its own from 512 characters on. */
  lemma Sizes(s: string, t: string, text: string)
    requires |s| == 1023 && 1 <= |t| <= 1024
    ensures AppendTo(Buf("", 0, Heap([true, true, true], 0)), s) == Result(true, Buf(s, 1024, Heap([true, true], 0)))
    ensures AppendTo(Buf(s, 1024, Heap([true, true], 0)), t) == Result(true, Buf(s + t, 2048, Heap([true], 0)))
    ensures |text| <= 511 ==>
      AppendFormattedTo(Buf("", 0, Heap([true, true, true], 0)), text)
        == Result(true, Buf(text, 1024, Heap([true, true], 0)))
    ensures 512 <= |text| <= 1023 ==>
      AppendFormattedTo(Buf("", 0, Heap([true, true, true], 0)), text)
        == Result(true, Buf(text, 1024, Heap([true], 0)))
  {
    assert "" + s == s && "" + text == text;
    assert Grown(2048, |s| + |t| + 1) == 2048 == Grown(1024, |s| + |t| + 1);
    assert [true, true, true][1..] == [true, true] && [true, true][1..] == [true];
  }

  /** strbuf_t. moved counts the bytes that reallocations have copied so far. */
  class StrBuf {
    var buf: array?<char>
    var len: nat
    var cap: nat
    ghost var moved: nat

    /** The contents end in a NUL inside the capacity, which is 1024 times a power of two and at most twice what the
        contents need; all copying so far is less than the capacity. */
    ghost predicate Valid()
      reads this, buf
    {
      if buf == null then len == cap == moved == 0 else
        && buf.Length == cap && len < cap && buf[len] == '\0'
        && Capacity(cap) && cap <= Max(FIRST, 2 * (len + 1)) && moved + FIRST <= cap
    }

    ghost function Contents(): string
      reads this, buf
      requires Valid()
    {
      if buf == null then "" else buf[..len]
    }

    ghost function State(mem: Memory): Buf
      reads this, buf, mem
      requires Valid()
    {
      Buf(Contents(), cap, mem.heap)
    }

    constructor ()
      ensures Valid() && Contents() == "" && buf == null && cap == 0
    {
      buf, len, cap, moved := null, 0, 0, 0;
    }

    /** The buffer read as text. */
    method Text() returns (t: string)
      requires Valid()
      ensures t == Contents()
    {
      t := if buf == null then "" else buf[..len];
    }

    /** The doubling loop. */
    method GrownCapacity(need: nat) returns (ncap: nat)
      requires cap == 0 || (Capacity(cap) && cap < need)
      ensures ncap == Grown(if cap > 0 then cap else FIRST, need)
      ensures Capacity(ncap) && ncap <= Max(FIRST, 2 * need)
    {
      FirstCapacity();
      ncap := if cap > 0 then cap else FIRST;
      while ncap < need
        invariant Capacity(ncap) && ncap <= Max(FIRST, 2 * need)
        invariant Grown(ncap, need) == Grown(if cap > 0 then cap else FIRST, need)
        decreases need - ncap
      {
        Doubled(ncap);
        ncap := ncap * 2;
      }
    }

    /** sb_reserve: room for extra characters and a NUL, unless realloc refuses. */
    method Reserve(extra: nat, mem: Memory) returns (ok: bool)
      requires Valid()
      modifies this, mem
      ensures len == old(len)
      ensures len + extra < old(cap) ==> ok && buf == old(buf) && cap == old(cap) && mem.heap == old(mem.heap)
      ensures len + extra >= old(cap) ==> ok == old(mem.heap).Grants() && mem.heap == old(mem.heap).After()
      ensures len + extra >= old(cap) && ok ==>
        fresh(buf) && cap == Grown(if old(cap) > 0 then old(cap) else FIRST, len + extra + 1)
      ensures !ok ==> buf == old(buf) && cap == old(cap) && moved == old(moved)
      ensures ok ==> buf != null && buf.Length == cap && len + extra < cap && buf[..len] == old(Contents())
      ensures ok ==> Capacity(cap) && cap <= Max(FIRST, 2 * (len + extra + 1)) && moved + FIRST <= cap
    {
      if len + extra + 1 <= cap { return true; }
      var ncap := GrownCapacity(len + extra + 1);
      ok := mem.Grant();
      if !ok { return; }
      var nb := new char[ncap];
      if buf != null {
        forall i | 0 <= i < cap { nb[i] := buf[i]; }
      }
      moved := moved + cap;
      buf, cap := nb, ncap;
    }

    /** Copying a text behind the contents, and the NUL behind the text. */
    method Put(s: string)
      requires buf != null && buf.Length == cap && len + |s| < cap
      modifies this`len, buf
      ensures len == old(len) + |s| && buf[..len] == old(buf[..len]) + s && buf[len] == '\0'
    {
      forall i | 0 <= i < |s| { buf[len + i] := s[i]; }
      assert buf[..len + |s|] == old(buf[..len]) + s;
      len := len + |s|;
      buf[len] := '\0';
    }

    /** sb_append. */
    method Append(s: string, mem: Memory) returns (ok: bool)
      requires Valid()
      modifies this, buf, mem
      ensures Valid() && (buf == old(buf) || fresh(buf))
      ensures Result(ok, State(mem)) == AppendTo(old(State(mem)), s)
    {
      hide Grown, Capacity;
      ok := Reserve(|s|, mem);
      if !ok { return; }
      Put(s);
    }

    /** sb_appendf, given the formatted text. */
    method AppendFormatted(text: string, mem: Memory) returns (ok: bool)
      requires Valid()
      modifies this, buf, mem
      ensures Valid() && (buf == old(buf) || fresh(buf))
      ensures Result(ok, State(mem)) == AppendFormattedTo(old(State(mem)), text)
    {
      hide Grown, AppendTo;
      if |text| < 512 {
        ok := Append(text, mem);
        return;
      }
      ok := mem.Grant();
      if ok {
        ok := Append(text, mem);
      }
    }
  }
}
