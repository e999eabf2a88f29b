/**
 Checksums as linear shift registers, without saying what a register is: a byte is added to the
 register and the register is stepped. What such a checksum detects follows from a few laws.
 */
module ShiftRegister {

  function Iterate<R>(f: R -> R, c: R, n: nat): R {
    if n == 0 then c else f(Iterate(f, c, n - 1))
  }

  /** The first application can be taken out instead of the last. */
  lemma {:induction false} IterateOnce<R>(f: R -> R, c: R, n: nat)
    requires n > 0
    ensures Iterate(f, c, n) == Iterate(f, f(c), n - 1)
  {
    if n > 1 {
      IterateOnce(f, c, n - 1);
    }
  }

  lemma {:induction false} IterateIsAdditive<R(!new)>(f: R -> R, add: (R, R) -> R, x: R, y: R, n: nat)
    requires forall a, b :: f(add(a, b)) == add(f(a), f(b))
    ensures Iterate(f, add(x, y), n) == add(Iterate(f, x, n), Iterate(f, y, n))
  {
    if n != 0 {
      IterateIsAdditive(f, add, x, y, n - 1);
    }
  }

  lemma {:induction false} IterateIsInjective<R(!new)>(f: R -> R, x: R, y: R, n: nat)
    requires forall a, b :: f(a) == f(b) ==> a == b
    requires Iterate(f, x, n) == Iterate(f, y, n)
    ensures x == y
  {
    if n != 0 {
      IterateIsInjective(f, x, y, n - 1);
    }
  }

  /** `embed` puts a byte at the low end of a register, `up` moves a register one byte up. */
  datatype Machine<!R, !B> = Machine(step: R -> R, add: (R, R) -> R, embed: B -> R, up: R -> R)

  ghost predicate StepsAdd<R(!new), B(!new)>(m: Machine<R, B>) {
    forall x, y :: m.step(m.add(x, y)) == m.add(m.step(x), m.step(y))
  }

  ghost predicate Associates<R(!new), B(!new)>(m: Machine<R, B>) {
    forall x, y, z :: m.add(m.add(x, y), z) == m.add(x, m.add(y, z))
  }

  ghost predicate StepsDown<R(!new), B(!new)>(m: Machine<R, B>) {
    forall b ::
      && m.step(m.up(m.embed(b))) == m.embed(b)
      && m.step(m.up(m.up(m.embed(b)))) == m.up(m.embed(b))
      && m.step(m.up(m.up(m.up(m.embed(b))))) == m.up(m.up(m.embed(b)))
  }

  ghost predicate Lawful<R(!new), B(!new)>(m: Machine<R, B>) {
    StepsAdd(m) && Associates(m) && StepsDown(m)
  }

  ghost predicate Reversible<R(!new), B(!new)>(m: Machine<R, B>) {
    && (forall x, y :: m.step(x) == m.step(y) ==> x == y)
    && (forall x, y, z :: m.add(x, z) == m.add(y, z) ==> x == y)
    && (forall x, y, z :: m.add(z, x) == m.add(z, y) ==> x == y)
  }

  ghost predicate WordsAreBytes<R(!new), B(!new)>(m: Machine<R, B>) {
    forall b0, b1, b2, b3, d0, d1, d2, d3 ::
      WordOf(m, b0, b1, b2, b3) == WordOf(m, d0, d1, d2, d3) ==> b0 == d0 && b1 == d1 && b2 == d2 && b3 == d3
  }

  function Feed<R, B>(m: Machine<R, B>, c: R, b: B): R {
    m.step(m.add(c, m.embed(b)))
  }

  function Register<R, B>(m: Machine<R, B>, c: R, data: seq<B>): R {
    if data == [] then c else Feed(m, Register(m, c, data[..|data| - 1]), data[|data| - 1])
  }

  /** Four bytes side by side in one register, the first at the low end. */
  function WordOf<R, B>(m: Machine<R, B>, b0: B, b1: B, b2: B, b3: B): R {
    m.add(m.embed(b0), m.add(m.up(m.embed(b1)), m.add(m.up(m.up(m.embed(b2))), m.up(m.up(m.up(m.embed(b3)))))))
  }

  lemma {:induction false} RegisterConcat<R, B>(m: Machine<R, B>, c: R, a: seq<B>, b: seq<B>)
    ensures Register(m, c, a + b) == Register(m, Register(m, c, a), b)
  {
    if b == [] {
      assert a + b == a;
    } else {
      RegisterConcat(m, c, a, b[..|b| - 1]);
      assert (a + b)[..|a + b| - 1] == a + b[..|b| - 1];
    }
  }

  /** Feeding the same bytes never makes two different registers equal. */
  lemma {:induction false} RegisterIsInjective<R(!new), B(!new)>(m: Machine<R, B>, c: R, d: R, data: seq<B>)
    requires Reversible(m) && Register(m, c, data) == Register(m, d, data)
    ensures c == d
  {
    if data != [] {
      var x, y := Register(m, c, data[..|data| - 1]), Register(m, d, data[..|data| - 1]);
      var e := m.embed(data[|data| - 1]);
      assert m.step(m.add(x, e)) == m.step(m.add(y, e));
      RegisterIsInjective(m, c, d, data[..|data| - 1]);
    }
  }

  /** A value added after a step could have been added before it, one byte further up. */
  lemma Earlier<R(!new), B(!new)>(m: Machine<R, B>, x: R, e: R)
    requires Lawful(m) && m.step(m.up(e)) == e
    ensures m.add(m.step(x), e) == m.step(m.add(x, m.up(e)))
  {
    assert m.step(m.add(x, m.up(e))) == m.add(m.step(x), m.step(m.up(e)));
  }

  /** Four bytes go through the register like the one word they form. */
  lemma FourBytesAreOneWord<R(!new), B(!new)>(m: Machine<R, B>, c: R, b0: B, b1: B, b2: B, b3: B)
    requires Lawful(m)
    ensures Feed(m, Feed(m, Feed(m, Feed(m, c, b0), b1), b2), b3)
            == m.step(m.step(m.step(m.step(m.add(c, WordOf(m, b0, b1, b2, b3))))))
  {
    var e1, e2, e3 := m.embed(b1), m.embed(b2), m.embed(b3);
    var x0 := m.add(c, m.embed(b0));
    var x1 := m.add(x0, m.up(e1));
    var x2 := m.add(x1, m.up(m.up(e2)));
    var x3 := m.add(x2, m.up(m.up(m.up(e3))));
    Earlier(m, x0, e1);
    Earlier(m, m.step(x1), e2);
    Earlier(m, x1, m.up(e2));
    Earlier(m, m.step(m.step(x2)), e3);
    Earlier(m, m.step(x2), m.up(e3));
    Earlier(m, x2, m.up(m.up(e3)));
    SumOfFour(m, c, m.embed(b0), m.up(e1), m.up(m.up(e2)), m.up(m.up(m.up(e3))));
  }

  lemma SumOfFour<R(!new), B(!new)>(m: Machine<R, B>, c: R, w: R, x: R, y: R, z: R)
    requires Lawful(m)
    ensures m.add(m.add(m.add(m.add(c, w), x), y), z) == m.add(c, m.add(w, m.add(x, m.add(y, z))))
  {
  }

  lemma RegisterOfFour<R(!new), B(!new)>(m: Machine<R, B>, c: R, w: seq<B>)
    requires |w| == 4
    ensures Register(m, c, w) == Feed(m, Feed(m, Feed(m, Feed(m, c, w[0]), w[1]), w[2]), w[3])
  {
    assert w[..3][..2] == w[..2] && w[..2][..1] == w[..1] && w[..1][..0] == [];
    assert Register(m, c, w[..1]) == Feed(m, c, w[0]);
    assert Register(m, c, w[..2]) == Feed(m, Register(m, c, w[..1]), w[1]);
    assert Register(m, c, w[..3]) == Feed(m, Register(m, c, w[..2]), w[2]);
  }

  lemma SameSum<R(!new), B(!new)>(m: Machine<R, B>, c: R, x: R, y: R)
    requires Reversible(m)
    requires m.step(m.step(m.step(m.step(m.add(c, x))))) == m.step(m.step(m.step(m.step(m.add(c, y)))))
    ensures x == y
  {
  }

  lemma FourBytesAreInjective<R(!new), B(!new)>(m: Machine<R, B>, c: R, v: seq<B>, w: seq<B>)
    requires Lawful(m) && Reversible(m) && WordsAreBytes(m)
    requires |v| == |w| == 4 && Register(m, c, v) == Register(m, c, w)
    ensures v == w
  {
    RegisterOfFour(m, c, v);
    RegisterOfFour(m, c, w);
    FourBytesAreOneWord(m, c, v[0], v[1], v[2], v[3]);
    FourBytesAreOneWord(m, c, w[0], w[1], w[2], w[3]);
    SameSum(m, c, WordOf(m, v[0], v[1], v[2], v[3]), WordOf(m, w[0], w[1], w[2], w[3]));
    SameBytes(m, v, w);
  }

  lemma SameBytes<R(!new), B(!new)>(m: Machine<R, B>, v: seq<B>, w: seq<B>)
    requires WordsAreBytes(m) && |v| == |w| == 4
    requires WordOf(m, v[0], v[1], v[2], v[3]) == WordOf(m, w[0], w[1], w[2], w[3])
    ensures v == w
  {
  }

  /** Damage confined to four neighbouring bytes always shows in the register. */
  lemma BurstIsDetected<R(!new), B(!new)>(m: Machine<R, B>, c: R, before: seq<B>, v: seq<B>, w: seq<B>, after: seq<B>, filler: B)
    requires Lawful(m) && Reversible(m) && WordsAreBytes(m) && |v| == |w| <= 4
    ensures Register(m, c, before + v + after) == Register(m, c, before + w + after) <==> v == w
  {
    var d := Register(m, c, before);
    RegisterConcat(m, c, before + v, after);
    RegisterConcat(m, c, before + w, after);
    RegisterConcat(m, c, before, v);
    RegisterConcat(m, c, before, w);
    if Register(m, c, before + v + after) == Register(m, c, before + w + after) {
      RegisterIsInjective(m, Register(m, d, v), Register(m, d, w), after);
      var fill := seq(4 - |v|, i => filler);
      RegisterConcat(m, d, v, fill);
      RegisterConcat(m, d, w, fill);
      FourBytesAreInjective(m, d, v + fill, w + fill);
      assert v == (v + fill)[..|v|] && w == (w + fill)[..|w|];
    }
  }
}
