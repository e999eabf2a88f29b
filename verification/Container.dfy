/**
 A container of records with a directory behind them, whatever the records look like: every
 entry has a local record and a directory record that knows where the local one starts.
 */
module Container {
  import opened Common
  import opened Words

  type Bytes = seq<Byte>

  /** How an entry is written locally and, given the offset of that, in the directory; and what closes the container. */
  datatype Layout<!E> = Layout(local: E -> Bytes, central: (E, nat) -> Bytes, end: (nat, nat, nat) -> Bytes)

  /** Buffer.concat. */
  function Concat(parts: seq<Bytes>): Bytes {
    if parts == [] then [] else Concat(parts[..|parts| - 1]) + parts[|parts| - 1]
  }

  function Locals<E>(layout: Layout<E>, es: seq<E>): (r: seq<Bytes>)
    ensures |r| == |es|
  {
    seq(|es|, i requires 0 <= i < |es| => layout.local(es[i]))
  }

  /** Where the i-th local record starts. */
  function Offset<E>(layout: Layout<E>, es: seq<E>, i: nat): nat
    requires i <= |es|
  {
    |Concat(Locals(layout, es)[..i])|
  }

  function Centrals<E>(layout: Layout<E>, es: seq<E>): (r: seq<Bytes>)
    ensures |r| == |es|
  {
    seq(|es|, i requires 0 <= i < |es| => layout.central(es[i], Offset(layout, es, i)))
  }

  /** Where the i-th directory record starts. */
  function CentralOffset<E>(layout: Layout<E>, es: seq<E>, i: nat): nat
    requires i <= |es|
  {
    |Concat(Locals(layout, es))| + |Concat(Centrals(layout, es)[..i])|
  }

  function End<E>(layout: Layout<E>, es: seq<E>): Bytes {
    layout.end(|es|, |Concat(Centrals(layout, es))|, |Concat(Locals(layout, es))|)
  }

  /** Local records, then the directory, then the end record. */
  function Archive<E>(layout: Layout<E>, es: seq<E>): Bytes {
    Concat(Locals(layout, es)) + Concat(Centrals(layout, es)) + End(layout, es)
  }

  // ---- where things are ----

  /** `part` lies in the buffer at this offset. */
  predicate At(b: Bytes, off: nat, part: Bytes) {
    off + |part| <= |b| && b[off..off + |part|] == part
  }

  lemma AtParts(b: Bytes, off: nat, x: Bytes, y: Bytes)
    requires At(b, off, x + y)
    ensures At(b, off, x) && At(b, off + |x|, y)
  {
    var whole := b[off..off + |x + y|];
    assert b[off..off + |x|] == whole[..|x|];
    assert b[off + |x|..off + |x| + |y|] == whole[|x|..];
  }

  lemma AtSlice(b: Bytes, off: nat, part: Bytes, i: nat, j: nat)
    requires At(b, off, part) && i <= j <= |part|
    ensures At(b, off + i, part[i..j])
  {
    assert part == part[..i] + (part[i..j] + part[j..]);
    AtParts(b, off, part[..i], part[i..j] + part[j..]);
    AtParts(b, off + i, part[i..j], part[j..]);
  }

  lemma {:induction false} ConcatPrefix(parts: seq<Bytes>, i: nat)
    requires i <= |parts|
    ensures Concat(parts[..i]) <= Concat(parts)
  {
    if i == |parts| {
      assert parts[..i] == parts;
    } else {
      ConcatPrefix(parts[..|parts| - 1], i);
      assert parts[..|parts| - 1][..i] == parts[..i];
    }
  }

  lemma ConcatStep(parts: seq<Bytes>, i: nat)
    requires i < |parts|
    ensures Concat(parts[..i + 1]) == Concat(parts[..i]) + parts[i]
  {
    assert parts[..i + 1][..i] == parts[..i];
  }

  /** The i-th part lies behind the ones before it. */
  lemma PartAt(b: Bytes, off: nat, parts: seq<Bytes>, i: nat)
    requires i < |parts| && At(b, off, Concat(parts))
    ensures At(b, off + |Concat(parts[..i])|, parts[i])
  {
    ConcatPrefix(parts, i + 1);
    ConcatStep(parts, i);
    var whole, before := Concat(parts), Concat(parts[..i]);
    assert whole == before + (parts[i] + whole[|before| + |parts[i]|..]);
    AtParts(b, off, before, parts[i] + whole[|before| + |parts[i]|..]);
    AtParts(b, off + |before|, parts[i], whole[|before| + |parts[i]|..]);
  }

  lemma ThreeParts(x: Bytes, y: Bytes, z: Bytes)
    ensures At(x + y + z, 0, x) && At(x + y + z, |x|, y) && At(x + y + z, |x| + |y|, z)
  {
  }

  lemma ArchiveParts<E>(layout: Layout<E>, es: seq<E>)
    ensures var b, locals, centrals := Archive(layout, es), Concat(Locals(layout, es)), Concat(Centrals(layout, es));
            && At(b, 0, locals) && At(b, |locals|, centrals)
            && |b| == |locals| + |centrals| + |End(layout, es)|
            && At(b, |locals| + |centrals|, End(layout, es))
  {
    ThreeParts(Concat(Locals(layout, es)), Concat(Centrals(layout, es)), End(layout, es));
  }

  /** Entry i's local record starts where its directory record says. */
  lemma RecordsAt<E>(layout: Layout<E>, es: seq<E>, i: nat)
    requires i < |es|
    ensures var b, here := Archive(layout, es), Offset(layout, es, i);
            At(b, here, layout.local(es[i])) && At(b, CentralOffset(layout, es, i), layout.central(es[i], here))
  {
    ArchiveParts(layout, es);
    PartAt(Archive(layout, es), 0, Locals(layout, es), i);
    PartAt(Archive(layout, es), |Concat(Locals(layout, es))|, Centrals(layout, es), i);
  }

  lemma CentralOffsetStep<E>(layout: Layout<E>, es: seq<E>, i: nat)
    requires i < |es|
    ensures CentralOffset(layout, es, i + 1) == CentralOffset(layout, es, i) + |layout.central(es[i], Offset(layout, es, i))|
  {
    ConcatStep(Centrals(layout, es), i);
  }

  // ---- reading record by record ----

  /** A loop over whatever one turn does: what it keeps, and where the next turn starts. */
  function ReadLoop<E, X>(one: nat -> Result<(seq<E>, nat), X>, count: nat, off: nat): Result<seq<E>, X> {
    if count == 0 then Ok([])
    else
      var turn := one(off);
      if turn.Err? then Err(turn.error) else Prepend(turn.value.0, ReadLoop(one, count - 1, turn.value.1))
  }

  function Prepend<E, X>(es: seq<E>, r: Result<seq<E>, X>): Result<seq<E>, X> {
    if r.Ok? then Ok(es + r.value) else r
  }

  lemma PrependTwice<E, X>(a: seq<E>, b: seq<E>, r: Result<seq<E>, X>)
    ensures Prepend(a, Prepend(b, r)) == Prepend(a + b, r)
  {
    if r.Ok? {
      assert a + (b + r.value) == a + b + r.value;
    }
  }

  lemma PrependNone<E, X>(es: seq<E>, r: Result<seq<E>, X>)
    ensures Prepend([], r) == r && (r == Ok([]) ==> Prepend(es, r) == Ok(es))
  {
    assert es + [] == es;
    if r.Ok? {
      assert [] + r.value == r.value;
    }
  }

  method RunLoop<E, X>(one: nat -> Result<(seq<E>, nat), X>, count: nat, start: nat) returns (r: Result<seq<E>, X>)
    ensures r == ReadLoop(one, count, start)
  {
    var entries: seq<E>, off: nat := [], start;
    PrependNone([], ReadLoop(one, count, start));
    for i := 0 to count
      invariant Prepend(entries, ReadLoop(one, count - i, off)) == ReadLoop(one, count, start)
    {
      var turn := one(off);
      if turn.Err? {
        return Err(turn.error);
      }
      PrependTwice(entries, turn.value.0, ReadLoop(one, count - i - 1, turn.value.1));
      entries, off := entries + turn.value.0, turn.value.1;
    }
    PrependNone(entries, ReadLoop(one, 0, off));
    return Ok(entries);
  }

  /** The entries a reader keeps, in order. */
  function Kept<E>(es: seq<E>, dropped: E -> bool): seq<E> {
    if es == [] then [] else (if dropped(es[0]) then [] else [es[0]]) + Kept(es[1..], dropped)
  }

  /** One turn at `off` reads the entry whose records lie at `off` and `here`. */
  ghost predicate Reads<E, X>(one: nat -> Result<(seq<E>, nat), X>, e: E, dropped: E -> bool, off: nat, next: nat) {
    one(off) == Ok((if dropped(e) then [] else [e], next))
  }

  lemma {:induction false} LoopReadsRest<E, X>(one: nat -> Result<(seq<E>, nat), X>, es: seq<E>, dropped: E -> bool, offs: seq<nat>, i: nat)
    requires i <= |es| && |offs| == |es| + 1
    requires forall k :: 0 <= k < |es| ==> Reads(one, es[k], dropped, offs[k], offs[k + 1])
    ensures ReadLoop(one, |es| - i, offs[i]) == Ok(Kept(es[i..], dropped))
    decreases |es| - i
  {
    if i == |es| {
      assert es[i..] == [];
    } else {
      assert Reads(one, es[i], dropped, offs[i], offs[i + 1]);
      LoopReadsRest(one, es, dropped, offs, i + 1);
      assert es[i..][1..] == es[i + 1..];
    }
  }

  /** A reader that understands every single record reads the whole container. */
  lemma LoopReadsArchive<E, X>(layout: Layout<E>, es: seq<E>, one: nat -> Result<(seq<E>, nat), X>, dropped: E -> bool)
    requires forall k :: 0 <= k < |es| ==>
               Reads(one, es[k], dropped, CentralOffset(layout, es, k), CentralOffset(layout, es, k + 1))
    ensures ReadLoop(one, |es|, |Concat(Locals(layout, es))|) == Ok(Kept(es, dropped))
  {
    var offs := seq(|es| + 1, i requires 0 <= i <= |es| => CentralOffset(layout, es, i));
    LoopReadsRest(one, es, dropped, offs, 0);
    assert es[0..] == es;
  }
}
