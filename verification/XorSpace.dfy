/** Shift registers over an abstract vector space.

    A register of type `T` combines input words with `op` and advances with a linear map
    `f`.  Nothing here knows about bit vectors: the CRC-32 module instantiates `T` with
    32-bit words, `op` with exclusive or and `f` with its one-bit or one-byte shift. */
module XorSpace {

  ghost predicate Linear<T(!new)>(op: (T, T) -> T, f: T -> T) {
    forall x, y {:trigger f(op(x, y))} :: f(op(x, y)) == op(f(x), f(y))
  }

  ghost predicate Injective<T(!new)>(f: T -> T) {
    forall x, y {:trigger f(x), f(y)} :: f(x) == f(y) ==> x == y
  }

  lemma InjectiveAt<T(!new)>(f: T -> T, x: T, y: T)
    requires Injective(f) && f(x) == f(y)
    ensures x == y
  {}

  /** `op(·, w)` can be undone. */
  ghost predicate Cancels<T(!new)>(op: (T, T) -> T) {
    forall x, y, w {:trigger op(x, w), op(y, w)} :: op(x, w) == op(y, w) ==> x == y
  }

  lemma LinearAt<T(!new)>(op: (T, T) -> T, f: T -> T, x: T, y: T)
    requires Linear(op, f)
    ensures f(op(x, y)) == op(f(x), f(y))
  {}

  function Iter<T>(f: T -> T, n: nat, x: T): T {
    if n == 0 then x else Iter(f, n - 1, f(x))
  }

  /** The register after absorbing `words` one at a time. */
  function Absorb<T>(op: (T, T) -> T, f: T -> T, s: T, words: seq<T>): T
    decreases |words|
  {
    if words == [] then s else Absorb(op, f, f(op(s, words[0])), words[1..])
  }

  /** All `words` combined up front, the k-th one raised `k` times by `up`. */
  function Gather<T>(op: (T, T) -> T, up: T -> T, s: T, words: seq<T>, k: nat): T
    decreases |words|
  {
    if words == [] then s
    else Gather(op, up, op(s, Iter(up, k, words[0])), words[1..], k + 1)
  }

  lemma {:induction false} IterSucc<T>(f: T -> T, n: nat, x: T)
    ensures Iter(f, n + 1, x) == f(Iter(f, n, x))
  {
    if n > 0 {
      IterSucc(f, n - 1, f(x));
    }
  }

  lemma {:induction false} IterAdd<T>(f: T -> T, m: nat, n: nat, x: T)
    ensures Iter(f, m + n, x) == Iter(f, n, Iter(f, m, x))
  {
    if m > 0 {
      IterAdd(f, m - 1, n, f(x));
    }
  }

  lemma {:induction false} IterLinear<T(!new)>(op: (T, T) -> T, f: T -> T, n: nat, x: T, y: T)
    requires Linear(op, f)
    ensures Iter(f, n, op(x, y)) == op(Iter(f, n, x), Iter(f, n, y))
  {
    if n > 0 {
      IterLinear(op, f, n - 1, f(x), f(y));
    }
  }

  lemma {:induction false} IterInjective<T(!new)>(f: T -> T, n: nat, x: T, y: T)
    requires Injective(f)
    requires Iter(f, n, x) == Iter(f, n, y)
    ensures x == y
  {
    if n > 0 {
      IterInjective(f, n - 1, f(x), f(y));
    }
  }

  /** Iterating twice is linear when iterating once is. */
  lemma LinearTwice<T(!new)>(op: (T, T) -> T, f: T -> T, g: T -> T)
    requires Linear(op, f)
    requires forall x :: g(x) == f(f(x))
    ensures Linear(op, g)
  {
    forall x, y
      ensures g(op(x, y)) == op(g(x), g(y))
    {
      assert f(op(f(x), f(y))) == op(f(f(x)), f(f(y)));
    }
  }

  lemma InjectiveTwice<T(!new)>(f: T -> T, g: T -> T)
    requires Injective(f)
    requires forall x :: g(x) == f(f(x))
    ensures Injective(g)
  {
    forall x, y | g(x) == g(y)
      ensures x == y
    {
      assert f(f(x)) == f(f(y));
    }
  }

  lemma {:induction false} AbsorbConcat<T>(op: (T, T) -> T, f: T -> T, s: T, a: seq<T>, b: seq<T>)
    ensures Absorb(op, f, s, a + b) == Absorb(op, f, Absorb(op, f, s, a), b)
    decreases |a|
  {
    if a == [] {
      assert a + b == b;
    } else {
      assert (a + b)[1..] == a[1..] + b;
      AbsorbConcat(op, f, f(op(s, a[0])), a[1..], b);
    }
  }

  /** Absorbing the same words is injective in the starting register. */
  lemma {:induction false} AbsorbInjective<T(!new)>(op: (T, T) -> T, f: T -> T, s: T, t: T, words: seq<T>)
    requires Injective(f) && Cancels(op)
    requires Absorb(op, f, s, words) == Absorb(op, f, t, words)
    ensures s == t
    decreases |words|
  {
    if words != [] {
      AbsorbInjective(op, f, f(op(s, words[0])), f(op(t, words[0])), words[1..]);
      assert op(s, words[0]) == op(t, words[0]);
    }
  }

  /** Every word is brought back by as many shifts as it was raised. */
  ghost predicate Raised<T>(f: T -> T, up: T -> T, words: seq<T>, k: nat) {
    forall j :: 0 <= j < |words| ==> Iter(f, k + j, Iter(up, k + j, words[j])) == words[j]
  }

  /** Undoing one raise at a time undoes them all. */
  lemma {:induction false} UndoRaises<T>(f: T -> T, up: T -> T, k: nat, w: T)
    requires forall j: nat {:trigger Iter(up, j, w)} :: j < k ==> f(up(Iter(up, j, w))) == Iter(up, j, w)
    ensures Iter(f, k, Iter(up, k, w)) == w
  {
    if k > 0 {
      IterSucc(up, k - 1, w);
      assert f(Iter(up, k, w)) == Iter(up, k - 1, w);
      UndoRaises(f, up, k - 1, w);
    }
  }

  /** Absorbing one word per shift equals gathering all words and then shifting. */
  lemma {:induction false} AbsorbIsGather<T(!new)>(op: (T, T) -> T, f: T -> T, up: T -> T, s: T, words: seq<T>, k: nat)
    requires Linear(op, f)
    requires Raised(f, up, words, k)
    ensures Absorb(op, f, Iter(f, k, s), words) == Iter(f, k + |words|, Gather(op, up, s, words, k))
    decreases |words|
  {
    if words != [] {
      var w := words[0];
      var raised := Iter(up, k, w);
      assert Iter(f, k + 0, Iter(up, k + 0, words[0])) == words[0];
      IterLinear(op, f, k, s, raised);
      IterSucc(f, k, op(s, raised));
      var rest := words[1..];
      forall j | 0 <= j < |rest|
        ensures Iter(f, k + 1 + j, Iter(up, k + 1 + j, rest[j])) == rest[j]
      {
        assert rest[j] == words[j + 1];
        assert Iter(f, k + (j + 1), Iter(up, k + (j + 1), words[j + 1])) == words[j + 1];
      }
      AbsorbIsGather(op, f, up, op(s, raised), rest, k + 1);
    }
  }

  /** Shifting a gathered register distributes over its four words. */
  lemma ShiftOfFour<T(!new)>(op: (T, T) -> T, f: T -> T, n: nat, s: T, w1: T, w2: T, w3: T)
    requires Linear(op, f)
    ensures Iter(f, n, op(op(op(s, w1), w2), w3))
         == op(op(op(Iter(f, n, s), Iter(f, n, w1)), Iter(f, n, w2)), Iter(f, n, w3))
  {
    IterLinear(op, f, n, s, w1);
    IterLinear(op, f, n, op(s, w1), w2);
    IterLinear(op, f, n, op(op(s, w1), w2), w3);
  }

  /** A word raised `k` times needs only `n - k` of the `n` shifts. */
  lemma ShiftOfRaised<T>(f: T -> T, up: T -> T, n: nat, k: nat, w: T)
    requires k <= n
    requires Iter(f, k, Iter(up, k, w)) == w
    ensures Iter(f, n, Iter(up, k, w)) == Iter(f, n - k, w)
  {
    IterAdd(f, k, n - k, Iter(up, k, w));
  }

  /** Four gathered words, shifted: each contributes its own power of the shift. */
  lemma SlicedWord<T(!new)>(op: (T, T) -> T, f: T -> T, up: T -> T, n: nat, a: T, b: T, c: T, d: T)
    requires Linear(op, f) && Raised(f, up, [a, b, c, d], 0)
    requires n >= 3
    ensures Iter(f, n, op(op(op(a, Iter(up, 1, b)), Iter(up, 2, c)), Iter(up, 3, d)))
         == op(op(op(Iter(f, n, a), Iter(f, n - 1, b)), Iter(f, n - 2, c)), Iter(f, n - 3, d))
  {
    var words := [a, b, c, d];
    assert Iter(f, 0 + 1, Iter(up, 0 + 1, words[1])) == words[1];
    assert Iter(f, 0 + 2, Iter(up, 0 + 2, words[2])) == words[2];
    assert Iter(f, 0 + 3, Iter(up, 0 + 3, words[3])) == words[3];
    ShiftOfFour(op, f, n, a, Iter(up, 1, b), Iter(up, 2, c), Iter(up, 3, d));
    ShiftOfRaised(f, up, n, 1, b);
    ShiftOfRaised(f, up, n, 2, c);
    ShiftOfRaised(f, up, n, 3, d);
  }

  lemma GatherFour<T>(op: (T, T) -> T, up: T -> T, s: T, a: T, b: T, c: T, d: T)
    ensures Gather(op, up, s, [a, b, c, d], 0)
         == op(op(op(op(s, a), Iter(up, 1, b)), Iter(up, 2, c)), Iter(up, 3, d))
  {
    var s1 := op(s, a);
    var s2 := op(s1, Iter(up, 1, b));
    var s3 := op(s2, Iter(up, 2, c));
    assert [a, b, c, d][1..] == [b, c, d];
    assert [b, c, d][1..] == [c, d];
    assert [c, d][1..] == [d];
    assert Gather(op, up, s, [a, b, c, d], 0) == Gather(op, up, s1, [b, c, d], 1);
    assert Gather(op, up, s1, [b, c, d], 1) == Gather(op, up, s2, [c, d], 2);
    assert Gather(op, up, s2, [c, d], 2) == Gather(op, up, s3, [d], 3);
  }

  /** Absorbing four words: fold them into the register, then shift four times. */
  lemma AbsorbFour<T(!new)>(op: (T, T) -> T, f: T -> T, up: T -> T, s: T, a: T, b: T, c: T, d: T)
    requires Linear(op, f) && Raised(f, up, [a, b, c, d], 0)
    ensures Absorb(op, f, s, [a, b, c, d])
         == Iter(f, 4, op(op(op(op(s, a), Iter(up, 1, b)), Iter(up, 2, c)), Iter(up, 3, d)))
  {
    AbsorbIsGather(op, f, up, s, [a, b, c, d], 0);
    GatherFour(op, up, s, a, b, c, d);
  }

  /** Slicing by eight: eight independent contributions replace eight dependent steps.
      `p`, `q`, `r`, `t` are the bytes of the register after the first word is folded in. */
  lemma SlicingByEight<T(!new)>(op: (T, T) -> T, f: T -> T, up: T -> T, s: T,
                                first: (T, T, T, T), second: (T, T, T, T), folded: (T, T, T, T))
    requires Linear(op, f)
    requires Raised(f, up, [first.0, first.1, first.2, first.3], 0)
    requires Raised(f, up, [second.0, second.1, second.2, second.3], 0)
    requires Raised(f, up, [folded.0, folded.1, folded.2, folded.3], 0)
    requires op(op(op(op(s, first.0), Iter(up, 1, first.1)), Iter(up, 2, first.2)), Iter(up, 3, first.3))
          == op(op(op(folded.0, Iter(up, 1, folded.1)), Iter(up, 2, folded.2)), Iter(up, 3, folded.3))
    ensures Absorb(op, f, s, [first.0, first.1, first.2, first.3] + [second.0, second.1, second.2, second.3])
         == op(op(op(op(op(op(op(
              Iter(f, 8, folded.0), Iter(f, 7, folded.1)), Iter(f, 6, folded.2)), Iter(f, 5, folded.3)),
              Iter(f, 4, second.0)), Iter(f, 3, second.1)), Iter(f, 2, second.2)), Iter(f, 1, second.3))
  {
    var (e, g, h, i) := second;
    var (p, q, r, t) := folded;
    var x := op(op(op(p, Iter(up, 1, q)), Iter(up, 2, r)), Iter(up, 3, t));
    AbsorbConcat(op, f, s, [first.0, first.1, first.2, first.3], [e, g, h, i]);
    AbsorbFour(op, f, up, s, first.0, first.1, first.2, first.3);
    var mid := Iter(f, 4, x);
    AbsorbFour(op, f, up, mid, e, g, h, i);
    var words := [e, g, h, i];
    assert Iter(f, 0 + 1, Iter(up, 0 + 1, words[1])) == words[1];
    assert Iter(f, 0 + 2, Iter(up, 0 + 2, words[2])) == words[2];
    assert Iter(f, 0 + 3, Iter(up, 0 + 3, words[3])) == words[3];
    ShiftOfFour(op, f, 4, op(mid, e), Iter(up, 1, g), Iter(up, 2, h), Iter(up, 3, i));
    IterLinear(op, f, 4, mid, e);
    ShiftOfRaised(f, up, 4, 1, g);
    ShiftOfRaised(f, up, 4, 2, h);
    ShiftOfRaised(f, up, 4, 3, i);
    IterAdd(f, 4, 4, x);
    SlicedWord(op, f, up, 8, p, q, r, t);
  }

  /** The eight contributions of a block: four from the folded register, four from its last words. */
  function Sliced<T>(op: (T, T) -> T, f: T -> T, folded: (T, T, T, T), last: seq<T>): T
    requires |last| == 4
  {
    op(op(op(op(op(op(op(
      Iter(f, 8, folded.0), Iter(f, 7, folded.1)), Iter(f, 6, folded.2)), Iter(f, 5, folded.3)),
      Iter(f, 4, last[0])), Iter(f, 3, last[1])), Iter(f, 2, last[2])), Iter(f, 1, last[3]))
  }

  lemma SlicedBlock<T(!new)>(op: (T, T) -> T, f: T -> T, up: T -> T, s: T, w: seq<T>, folded: (T, T, T, T))
    requires |w| == 8 && Linear(op, f)
    requires Raised(f, up, [w[0], w[1], w[2], w[3]], 0)
    requires Raised(f, up, [w[4], w[5], w[6], w[7]], 0)
    requires Raised(f, up, [folded.0, folded.1, folded.2, folded.3], 0)
    requires op(op(op(op(s, w[0]), Iter(up, 1, w[1])), Iter(up, 2, w[2])), Iter(up, 3, w[3]))
          == op(op(op(folded.0, Iter(up, 1, folded.1)), Iter(up, 2, folded.2)), Iter(up, 3, folded.3))
    ensures Absorb(op, f, s, w) == Sliced(op, f, folded, w[4..])
  {
    SlicingByEight(op, f, up, s, (w[0], w[1], w[2], w[3]), (w[4], w[5], w[6], w[7]), folded);
    assert w == [w[0], w[1], w[2], w[3]] + [w[4], w[5], w[6], w[7]];
  }

  /** A word made of a digit and a part the shift merely moves down. */
  lemma FoldDigit<T(!new)>(op: (T, T) -> T, f: T -> T, r: T, y: T, digit: T, rest: T, moved: T)
    requires Linear(op, f)
    requires op(r, y) == op(op(r, digit), rest)
    requires f(rest) == moved
    ensures f(op(r, y)) == op(f(op(r, digit)), moved)
  {}

  function Digits<T>(digit: T -> T, half: T -> T, n: nat, y: T): seq<T> {
    if n == 0 then [] else [digit(y)] + Digits(digit, half, n - 1, half(y))
  }

  /** Folding in a number folds in its lowest digit and leaves the others for later. */
  ghost predicate TakesDigits<T(!new)>(op: (T, T) -> T, f: T -> T, digit: T -> T, half: T -> T) {
    forall r, y {:trigger f(op(r, y))} :: f(op(r, y)) == op(f(op(r, digit(y))), half(y))
  }

  lemma TakeDigit<T(!new)>(op: (T, T) -> T, f: T -> T, digit: T -> T, half: T -> T, r: T, y: T)
    requires TakesDigits(op, f, digit, half)
    ensures f(op(r, y)) == op(f(op(r, digit(y))), half(y))
  {}

  /** Combining a whole word and shifting equals absorbing its digits one by one. */
  lemma {:induction false} AbsorbDigits<T(!new)>(op: (T, T) -> T, f: T -> T, digit: T -> T, half: T -> T,
    n: nat, r: T, y: T)
    requires TakesDigits(op, f, digit, half)
    ensures Iter(f, n, op(r, y)) == op(Absorb(op, f, r, Digits(digit, half, n, y)), Iter(half, n, y))
  {
    hide TakesDigits;
    if n > 0 {
      var r1 := f(op(r, digit(y)));
      TakeDigit(op, f, digit, half, r, y);
      AbsorbDigits(op, f, digit, half, n - 1, r1, half(y));
      var digits := Digits(digit, half, n, y);
      assert digits[0] == digit(y) && digits[1..] == Digits(digit, half, n - 1, half(y));
    }
  }

  ghost predicate LeftInverse<T(!new)>(g: T -> T, f: T -> T) {
    forall x {:trigger f(x)} :: g(f(x)) == x
  }

  lemma LeftInverseTwice<T(!new)>(g: T -> T, f: T -> T, gg: T -> T, ff: T -> T)
    requires LeftInverse(g, f)
    requires (forall x :: ff(x) == f(f(x))) && forall x :: gg(x) == g(g(x))
    ensures LeftInverse(gg, ff)
  {
    forall x
      ensures gg(ff(x)) == x
    {
      assert g(f(f(x))) == f(x);
    }
  }

  lemma {:induction false} LeftInverseIter<T(!new)>(g: T -> T, f: T -> T, n: nat, x: T)
    requires LeftInverse(g, f)
    ensures Iter(g, n, Iter(f, n, x)) == x
  {
    if n > 0 {
      IterSucc(f, n - 1, x);
      LeftInverseIter(g, f, n - 1, x);
    }
  }

  /** `op(op(a, b), op(c, d)) == op(op(a, c), op(b, d))`, as in any commutative group. */
  ghost predicate Medial<T(!new)>(op: (T, T) -> T) {
    forall a, b, c, d {:trigger op(op(a, b), op(c, d))} :: op(op(a, b), op(c, d)) == op(op(a, c), op(b, d))
  }

  ghost predicate Abelian<T(!new)>(op: (T, T) -> T) {
    && (forall a, b {:trigger op(a, b)} :: op(a, b) == op(b, a))
    && (forall a, b, c {:trigger op(op(a, b), c)} {:trigger op(a, op(b, c))} :: op(op(a, b), c) == op(a, op(b, c)))
  }

  lemma AbelianIsMedial<T(!new)>(op: (T, T) -> T)
    requires Abelian(op)
    ensures Medial(op)
  {
    forall a, b, c, d
      ensures op(op(a, b), op(c, d)) == op(op(a, c), op(b, d))
    {
      calc {
        op(op(a, b), op(c, d));
        op(a, op(b, op(c, d)));
        op(a, op(op(b, c), d));
        op(a, op(op(c, b), d));
        op(a, op(c, op(b, d)));
        op(op(a, c), op(b, d));
      }
    }
  }

  function Combine<T>(op: (T, T) -> T, a: seq<T>, b: seq<T>): (c: seq<T>)
    requires |a| == |b|
    ensures |c| == |a| && forall i :: 0 <= i < |a| ==> c[i] == op(a[i], b[i])
  {
    seq(|a|, i requires 0 <= i < |a| => op(a[i], b[i]))
  }

  /** Absorbing is affine: combining two runs is running the combination. */
  lemma {:induction false} AbsorbCombines<T(!new)>(op: (T, T) -> T, f: T -> T, s: T, t: T, a: seq<T>, b: seq<T>)
    requires Linear(op, f) && Medial(op)
    requires |a| == |b|
    ensures op(Absorb(op, f, s, a), Absorb(op, f, t, b)) == Absorb(op, f, op(s, t), Combine(op, a, b))
    decreases |a|
  {
    if a != [] {
      var s1, t1 := f(op(s, a[0])), f(op(t, b[0]));
      assert f(op(op(s, a[0]), op(t, b[0]))) == op(s1, t1);
      assert op(op(s, a[0]), op(t, b[0])) == op(op(s, t), op(a[0], b[0]));
      AbsorbCombines(op, f, s1, t1, a[1..], b[1..]);
      assert Combine(op, a, b)[1..] == Combine(op, a[1..], b[1..]);
    }
  }

  // ---------------------------------------------------------------------------
  // Registers over byte strings, seen only through how they compose

  /** `reg(s, bytes)` is the register after `bytes`, started at `s`. */
  ghost predicate Composes<T(!new), B(!new)>(reg: (T, seq<B>) -> T) {
    forall s, a, b {:trigger reg(s, a + b)} :: reg(s, a + b) == reg(reg(s, a), b)
  }

  ghost predicate InjectiveInStart<T(!new), B(!new)>(reg: (T, seq<B>) -> T) {
    forall s, t, q {:trigger reg(s, q), reg(t, q)} :: reg(s, q) == reg(t, q) ==> s == t
  }

  /** Different strings of exactly `n` bytes leave different registers. */
  ghost predicate SeparatesExactly<T(!new), B(!new)>(reg: (T, seq<B>) -> T, n: nat) {
    forall s, v, w {:trigger reg(s, v), reg(s, w)} ::
      |v| == |w| == n && reg(s, v) == reg(s, w) ==> v == w
  }

  /** If strings of exactly `n` bytes are separated, so is every change confined to `n` bytes. */
  lemma BurstSeparated<T(!new), B(!new)>(reg: (T, seq<B>) -> T, n: nat, filler: B,
                                         s: T, p: seq<B>, v: seq<B>, w: seq<B>, q: seq<B>)
    requires Composes(reg) && InjectiveInStart(reg) && SeparatesExactly(reg, n)
    requires |v| == |w| <= n
    requires reg(s, p + v + q) == reg(s, p + w + q)
    ensures v == w
  {
    var padding := seq(n - |v|, i => filler);
    assert reg(s, (p + v) + q) == reg(reg(s, p + v), q);
    assert reg(s, (p + w) + q) == reg(reg(s, p + w), q);
    assert reg(s, p + v) == reg(s, p + w);
    var r := reg(s, p);
    assert reg(r, v) == reg(r, w);
    assert reg(r, v + padding) == reg(r, w + padding);
    assert v == (v + padding)[..|v|] && w == (w + padding)[..|w|];
  }

  lemma FoldIntoFirst<T(!new)>(op: (T, T) -> T, s: T, a: T, b: T, c: T, d: T)
    requires forall x, y, z :: op(op(x, y), z) == op(x, op(y, z))
    ensures op(s, op(op(op(a, b), c), d)) == op(op(op(op(s, a), b), c), d)
  {
    assert op(op(op(s, a), b), c) == op(s, op(op(a, b), c));
  }
}
