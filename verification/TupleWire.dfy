/** Tuples of encodings, over any element codecs. */
module TupleWire {
  import opened Outcome
  import opened Bytes
  import opened Wire

  /** One encoding after the other; the first failure wins. */
  function Join(a: Bits, b: Bits): Bits {
    var x :- a;
    var y :- b;
    Ok(x + y)
  }

  function PutThree<A, B, C>(putA: A -> Bits, putB: B -> Bits, putC: C -> Bits, x: (A, B, C)): Bits {
    Join(putA(x.0), Join(putB(x.1), putC(x.2)))
  }

  function GetThree<A, B, C>(
    getA: seq<byte> -> Result<Parsed<A>>, getB: seq<byte> -> Result<Parsed<B>>,
    getC: seq<byte> -> Result<Parsed<C>>,
    s: seq<byte>): Result<Parsed<(A, B, C)>> {
    var a :- getA(s);
    var b :- getB(a.rest);
    var c :- getC(b.rest);
    Ok(Parsed((a.value, b.value, c.value), c.rest))
  }

  lemma {:induction false} ThreeCodec<A(!new), B(!new), C(!new)>(
    putA: A -> Bits, putB: B -> Bits, putC: C -> Bits,
    getA: seq<byte> -> Result<Parsed<A>>, getB: seq<byte> -> Result<Parsed<B>>, getC: seq<byte> -> Result<Parsed<C>>,
    goodA: A -> bool, goodB: B -> bool, goodC: C -> bool,
    put: ((A, B, C)) -> Bits, get: seq<byte> -> Result<Parsed<(A, B, C)>>, good: ((A, B, C)) -> bool)
    requires Codec(putA, getA, goodA) && Codec(putB, getB, goodB) && Codec(putC, getC, goodC)
    requires forall x :: put(x) == PutThree(putA, putB, putC, x)
    requires forall s :: get(s) == GetThree(getA, getB, getC, s)
    requires forall x :: good(x) <==> goodA(x.0) && goodB(x.1) && goodC(x.2)
    ensures Codec(put, get, good)
  {
    Assoc();
    forall x: (A, B, C) | good(x)
      ensures Reads(put, get, x)
    {
      assert Reads(putA, getA, x.0) && Reads(putB, getB, x.1) && Reads(putC, getC, x.2);
    }
  }

  function PutFour<A, B, C, D>(
    putA: A -> Bits, putB: B -> Bits, putC: C -> Bits, putD: D -> Bits,
    x: (A, B, C, D)): Bits {
    Join(putA(x.0), Join(putB(x.1), Join(putC(x.2), putD(x.3))))
  }

  function GetFour<A, B, C, D>(
    getA: seq<byte> -> Result<Parsed<A>>, getB: seq<byte> -> Result<Parsed<B>>,
    getC: seq<byte> -> Result<Parsed<C>>, getD: seq<byte> -> Result<Parsed<D>>,
    s: seq<byte>): Result<Parsed<(A, B, C, D)>> {
    var a :- getA(s);
    var b :- getB(a.rest);
    var c :- getC(b.rest);
    var d :- getD(c.rest);
    Ok(Parsed((a.value, b.value, c.value, d.value), d.rest))
  }

  lemma {:induction false} FourCodec<A(!new), B(!new), C(!new), D(!new)>(
    putA: A -> Bits, putB: B -> Bits, putC: C -> Bits, putD: D -> Bits,
    getA: seq<byte> -> Result<Parsed<A>>, getB: seq<byte> -> Result<Parsed<B>>,
    getC: seq<byte> -> Result<Parsed<C>>, getD: seq<byte> -> Result<Parsed<D>>,
    goodA: A -> bool, goodB: B -> bool, goodC: C -> bool, goodD: D -> bool,
    put: ((A, B, C, D)) -> Bits, get: seq<byte> -> Result<Parsed<(A, B, C, D)>>, good: ((A, B, C, D)) -> bool)
    requires Codec(putA, getA, goodA) && Codec(putB, getB, goodB) && Codec(putC, getC, goodC)
      && Codec(putD, getD, goodD)
    requires forall x :: put(x) == PutFour(putA, putB, putC, putD, x)
    requires forall s :: get(s) == GetFour(getA, getB, getC, getD, s)
    requires forall x :: good(x) <==> goodA(x.0) && goodB(x.1) && goodC(x.2) && goodD(x.3)
    ensures Codec(put, get, good)
  {
    Assoc();
    forall x: (A, B, C, D) | good(x)
      ensures Reads(put, get, x)
    {
      assert Reads(putA, getA, x.0) && Reads(putB, getB, x.1) && Reads(putC, getC, x.2) && Reads(putD, getD, x.3);
    }
  }

  function PutFive<A, B, C, D, E>(
    putA: A -> Bits, putB: B -> Bits, putC: C -> Bits, putD: D -> Bits, putE: E -> Bits,
    x: (A, B, C, D, E)): Bits {
    Join(putA(x.0), Join(putB(x.1), Join(putC(x.2), Join(putD(x.3), putE(x.4)))))
  }

  function GetFive<A, B, C, D, E>(
    getA: seq<byte> -> Result<Parsed<A>>, getB: seq<byte> -> Result<Parsed<B>>,
    getC: seq<byte> -> Result<Parsed<C>>, getD: seq<byte> -> Result<Parsed<D>>,
    getE: seq<byte> -> Result<Parsed<E>>,
    s: seq<byte>): Result<Parsed<(A, B, C, D, E)>> {
    var a :- getA(s);
    var b :- getB(a.rest);
    var c :- getC(b.rest);
    var d :- getD(c.rest);
    var e :- getE(d.rest);
    Ok(Parsed((a.value, b.value, c.value, d.value, e.value), e.rest))
  }

  lemma {:induction false} FiveCodec<A(!new), B(!new), C(!new), D(!new), E(!new)>(
    putA: A -> Bits, putB: B -> Bits, putC: C -> Bits, putD: D -> Bits, putE: E -> Bits,
    getA: seq<byte> -> Result<Parsed<A>>, getB: seq<byte> -> Result<Parsed<B>>,
    getC: seq<byte> -> Result<Parsed<C>>, getD: seq<byte> -> Result<Parsed<D>>, getE: seq<byte> -> Result<Parsed<E>>,
    goodA: A -> bool, goodB: B -> bool, goodC: C -> bool, goodD: D -> bool, goodE: E -> bool,
    put: ((A, B, C, D, E)) -> Bits, get: seq<byte> -> Result<Parsed<(A, B, C, D, E)>>, good: ((A, B, C, D, E)) -> bool)
    requires Codec(putA, getA, goodA) && Codec(putB, getB, goodB) && Codec(putC, getC, goodC)
      && Codec(putD, getD, goodD) && Codec(putE, getE, goodE)
    requires forall x :: put(x) == PutFive(putA, putB, putC, putD, putE, x)
    requires forall s :: get(s) == GetFive(getA, getB, getC, getD, getE, s)
    requires forall x :: good(x) <==> goodA(x.0) && goodB(x.1) && goodC(x.2) && goodD(x.3) && goodE(x.4)
    ensures Codec(put, get, good)
  {
    Assoc();
    forall x: (A, B, C, D, E) | good(x)
      ensures Reads(put, get, x)
    {
      assert Reads(putA, getA, x.0) && Reads(putB, getB, x.1) && Reads(putC, getC, x.2)
        && Reads(putD, getD, x.3) && Reads(putE, getE, x.4);
    }
  }

  /** A format for parts is a format for the whole they are the parts of. */
  lemma {:induction false} IsoCodec<A(!new), B(!new)>(
    putA: A -> Bits, getA: seq<byte> -> Result<Parsed<A>>, goodA: A -> bool, parts: B -> A, whole: A -> B,
    put: B -> Bits, get: seq<byte> -> Result<Parsed<B>>, good: B -> bool)
    requires Codec(putA, getA, goodA)
    requires forall x :: whole(parts(x)) == x && put(x) == putA(parts(x)) && (good(x) <==> goodA(parts(x)))
    requires forall a :: parts(whole(a)) == a
    requires forall s :: get(s) == Wrapped(getA(s), whole)
    ensures Codec(put, get, good)
  {
    forall x | good(x)
      ensures Reads(put, get, x)
    {
      assert Reads(putA, getA, parts(x));
    }
    forall s: seq<byte> | get(s).Ok?
      ensures good(get(s).value.value) && Fits(put(get(s).value.value), get(s).value.rest, s)
    {
      var a := getA(s).value.value;
      assert get(s).value.value == whole(a) && parts(whole(a)) == a;
    }
  }
}
