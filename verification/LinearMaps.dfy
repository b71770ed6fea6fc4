/** Registers driven by an injective linear map, over any exclusive or: no bit patterns in sight. */
module LinearMaps {
  /** Marks the operands at which a law below is wanted. */
  predicate At<W>(a: W, b: W, c: W) {
    true
  }

  ghost predicate Group<W(!new)>(xor: (W, W) -> W) {
    && (forall a: W, b: W, c: W {:trigger At(a, b, c)} :: xor(xor(a, b), c) == xor(a, xor(b, c)))
    && (forall a: W, b: W, c: W {:trigger At(a, b, c)} :: xor(xor(a, b), b) == a)
  }

  ghost predicate Linear<W(!new)>(f: W -> W, xor: (W, W) -> W) {
    forall a: W, b: W, c: W {:trigger At(a, b, c)} :: f(xor(a, b)) == xor(f(a), f(b))
  }

  ghost predicate Injective<W(!new)>(f: W -> W) {
    forall a: W, b: W :: f(a) == f(b) ==> a == b
  }

  /** The relation sum holds exactly of the values of xor. */
  ghost predicate Sums<W(!new)>(sum: (W, W, W) -> bool, xor: (W, W) -> W) {
    forall a: W, b: W, c: W :: sum(c, a, b) <==> c == xor(a, b)
  }

  ghost predicate Additive<W(!new)>(f: W -> W, sum: (W, W, W) -> bool) {
    forall a: W, b: W, c: W :: sum(c, a, b) ==> sum(f(c), f(a), f(b))
  }

  lemma AdditiveIsLinear<W(!new)>(f: W -> W, sum: (W, W, W) -> bool, xor: (W, W) -> W)
    requires Sums(sum, xor) && Additive(f, sum)
    ensures Linear(f, xor)
  {
    forall a: W, b: W, c: W {:trigger At(a, b, c)} ensures f(xor(a, b)) == xor(f(a), f(b)) {
      assert sum(xor(a, b), a, b);
    }
  }

  lemma Associative<W(!new)>(xor: (W, W) -> W, a: W, b: W, c: W)
    requires Group(xor)
    ensures xor(xor(a, b), c) == xor(a, xor(b, c))
  {
    assert At(a, b, c);
  }

  lemma Cancel<W(!new)>(xor: (W, W) -> W, a: W, b: W, c: W)
    requires Group(xor) && xor(a, c) == xor(b, c)
    ensures a == b
  {
    assert At(a, c, c) && At(b, c, c);
  }

  lemma Splits<W(!new)>(f: W -> W, xor: (W, W) -> W, a: W, b: W)
    requires Linear(f, xor)
    ensures f(xor(a, b)) == xor(f(a), f(b))
  {
    assert At(a, b, b);
  }

  /** The register after a message. */
  function Run<W>(f: W -> W, xor: (W, W) -> W, x: W, data: seq<W>): W {
    if |data| == 0 then x else f(xor(Run(f, xor, x, data[..|data| - 1]), data[|data| - 1]))
  }

  lemma {:induction false} RunConcat<W>(f: W -> W, xor: (W, W) -> W, x: W, a: seq<W>, b: seq<W>)
    ensures Run(f, xor, x, a + b) == Run(f, xor, Run(f, xor, x, a), b)
  {
    if |b| == 0 {
      assert a + b == a;
    } else {
      assert (a + b)[..|a + b| - 1] == a + b[..|b| - 1];
      RunConcat(f, xor, x, a, b[..|b| - 1]);
    }
  }

  /** The same message keeps distinct registers distinct. */
  lemma {:induction false} RunInjective<W(!new)>(f: W -> W, xor: (W, W) -> W, x: W, y: W, data: seq<W>)
    requires Group(xor) && Injective(f)
    requires Run(f, xor, x, data) == Run(f, xor, y, data)
    ensures x == y
  {
    if |data| > 0 {
      var before, last := data[..|data| - 1], data[|data| - 1];
      Cancel(xor, Run(f, xor, x, before), Run(f, xor, y, before), last);
      RunInjective(f, xor, x, y, before);
    }
  }

  lemma RunLast<W>(f: W -> W, xor: (W, W) -> W, x: W, data: seq<W>, b: W)
    ensures Run(f, xor, x, data + [b]) == f(xor(Run(f, xor, x, data), b))
  {
    assert (data + [b])[..|data|] == data;
  }

  lemma RunFour<W>(f: W -> W, xor: (W, W) -> W, x: W, b0: W, b1: W, b2: W, b3: W)
    ensures Run(f, xor, x, [b0, b1, b2, b3]) == f(xor(f(xor(f(xor(f(xor(x, b0)), b1)), b2)), b3))
  {
    RunLast(f, xor, x, [], b0);
    RunLast(f, xor, x, [b0], b1);
    RunLast(f, xor, x, [b0, b1], b2);
    RunLast(f, xor, x, [b0, b1, b2], b3);
    assert [] + [b0] == [b0] && [b0] + [b1] == [b0, b1];
    assert [b0, b1] + [b2] == [b0, b1, b2] && [b0, b1, b2] + [b3] == [b0, b1, b2, b3];
  }

  /** The word four inputs make, each but the first lifted back over the applications before it. */
  function Joined<W>(xor: (W, W) -> W, b0: W, h1: W, h2: W, h3: W): W {
    xor(xor(xor(b0, h1), h2), h3)
  }

  lemma JoinedOver<W(!new)>(xor: (W, W) -> W, x: W, b0: W, h1: W, h2: W, h3: W)
    requires Group(xor)
    ensures xor(xor(xor(xor(x, b0), h1), h2), h3) == xor(x, Joined(xor, b0, h1, h2, h3))
  {
    Associative(xor, x, b0, h1);
    Associative(xor, x, xor(b0, h1), h2);
    Associative(xor, x, xor(xor(b0, h1), h2), h3);
  }

  /** Four inputs act on the register as their word does. */
  lemma FourInputs<W(!new)>(f: W -> W, xor: (W, W) -> W, x: W, b0: W, b1: W, b2: W, b3: W, h1: W, h2: W, h3: W)
    requires Group(xor) && Linear(f, xor)
    requires f(h1) == b1 && f(f(h2)) == b2 && f(f(f(h3))) == b3
    ensures Run(f, xor, x, [b0, b1, b2, b3]) == f(f(f(f(xor(x, Joined(xor, b0, h1, h2, h3))))))
  {
    RunFour(f, xor, x, b0, b1, b2, b3);
    var w0 := xor(x, b0);
    Splits(f, xor, w0, h1);
    var w1 := xor(w0, h1);
    Splits(f, xor, f(w1), f(h2));
    Splits(f, xor, w1, h2);
    var w2 := xor(w1, h2);
    Splits(f, xor, f(f(w2)), f(f(h3)));
    Splits(f, xor, f(w2), f(h3));
    Splits(f, xor, w2, h3);
    JoinedOver(xor, x, b0, h1, h2, h3);
  }

  /**
   Four inputs from x and four from y reach the same register exactly when x plus its word and y
   plus its word agree.
   */
  lemma FourInputsAgree<W(!new)>(f: W -> W, xor: (W, W) -> W, x: W, y: W,
                                 b0: W, b1: W, b2: W, b3: W, h1: W, h2: W, h3: W,
                                 c0: W, c1: W, c2: W, c3: W, k1: W, k2: W, k3: W)
    requires Group(xor) && Linear(f, xor) && Injective(f)
    requires f(h1) == b1 && f(f(h2)) == b2 && f(f(f(h3))) == b3
    requires f(k1) == c1 && f(f(k2)) == c2 && f(f(f(k3))) == c3
    ensures Run(f, xor, x, [b0, b1, b2, b3]) == Run(f, xor, y, [c0, c1, c2, c3])
       <==> xor(x, Joined(xor, b0, h1, h2, h3)) == xor(y, Joined(xor, c0, k1, k2, k3))
  {
    FourInputs(f, xor, x, b0, b1, b2, b3, h1, h2, h3);
    FourInputs(f, xor, y, c0, c1, c2, c3, k1, k2, k3);
  }
}
