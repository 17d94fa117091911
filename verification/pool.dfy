/** Pool construction: the enabled alphabets are appended with `strcat`, in
    the order Upper, Lower, Digit, Special, into a `MaxLen`-byte buffer,
    while a separate counter tracks the pool length (passgen.c:38-66). */
module Pool {
  import opened Charsets

  datatype PoolResult =
    | Pool(chars: string)
      /** No class was enabled: the source reports an error and exits. */
    | EmptyPool

  /** `strcat` into the pool buffer: the appended text and the terminator
      must fit in the `MaxLen` bytes of the buffer. */
  function Strcat(dst: string, src: string): (r: string)
    requires |dst| + |src| + 1 <= MaxLen
    ensures |r| == |dst| + |src| < MaxLen && r[..|dst|] == dst && r[|dst|..] == src
  {
    dst + src
  }

  /** The pool builder, step by step as the source does it: append each
      enabled alphabet and add its length to `poolLen`, then refuse an empty
      pool. */
  function BuildPool(cs: ClassSet): (r: PoolResult)
    ensures r.Pool? <==> cs.Any()
    ensures r.Pool? ==> r.chars == PoolOf(cs)
    ensures r.Pool? ==> |r.chars| == 26 * Indicator(cs.upper) + 26 * Indicator(cs.lower)
                                   + 10 * Indicator(cs.digits) + 26 * Indicator(cs.special)
    ensures r.Pool? ==> |r.chars| <= 88 && |r.chars| + 1 <= MaxLen
  {
    AlphabetFacts();
    var p0, n0 := "", 0;
    var p1, n1 := if cs.upper then Strcat(p0, UpperAlpha) else p0,
                  if cs.upper then n0 + |UpperAlpha| else n0;
    var p2, n2 := if cs.lower then Strcat(p1, LowerAlpha) else p1,
                  if cs.lower then n1 + |LowerAlpha| else n1;
    var p3, n3 := if cs.digits then Strcat(p2, DigitAlpha) else p2,
                  if cs.digits then n2 + |DigitAlpha| else n2;
    var p4, n4 := if cs.special then Strcat(p3, SpecialAlpha) else p3,
                  if cs.special then n3 + |SpecialAlpha| else n3;
    assert n4 == |p4| && p4 == PoolOf(cs) by {
      AppendChain(UpperAlpha, LowerAlpha, DigitAlpha, SpecialAlpha, cs.upper, cs.lower, cs.digits, cs.special);
      PoolOfSpelledOut(cs);
    }
    if n4 == 0 then EmptyPool else Pool(p4)
  }

  /** A character is in the pool exactly when it belongs to the alphabet of
      an enabled class. */
  lemma PoolMembership(cs: ClassSet, ch: char)
    requires cs.Any()
    ensures ch in BuildPool(cs).chars <==> InClasses(ch, cs)
  {
    var ks := Enabled(cs);
    var parts := Alphabets(ks);
    assert |parts| == |ks|;
    FlattenMembership(parts, ch);
    if InClasses(ch, cs) {
      var k :| cs.Has(k) && ch in Alphabet(k);
      EnabledHas(cs, k);
      var j :| 0 <= j < |ks| && ks[j] == k;
      assert parts[j] == Alphabet(k);
    }
    if ch in Flatten(parts) {
      var j :| 0 <= j < |parts| && ch in parts[j];
      assert parts[j] == Alphabet(ks[j]);
      EnabledHas(cs, ks[j]);
    }
  }

  /** An element is in the concatenation exactly when some part holds it. */
  lemma {:induction false} FlattenMembership<T>(parts: seq<seq<T>>, x: T)
    ensures x in Flatten(parts) <==> exists j :: 0 <= j < |parts| && x in parts[j]
  {
    if |parts| > 0 {
      FlattenMembership(parts[1..], x);
      if x in Flatten(parts[1..]) {
        var j :| 0 <= j < |parts| - 1 && x in parts[1..][j];
        assert x in parts[j + 1];
      }
      if exists j :: 0 <= j < |parts| && x in parts[j] {
        var j :| 0 <= j < |parts| && x in parts[j];
        if j > 0 {
          assert x in parts[1..][j - 1];
        }
      }
    }
  }

  lemma {:induction false} FlattenAppend<T>(a: seq<seq<T>>, b: seq<seq<T>>)
    ensures Flatten(a + b) == Flatten(a) + Flatten(b)
  {
    if |a| == 0 {
      assert a + b == b;
    } else {
      assert (a + b)[1..] == a[1..] + b;
      FlattenAppend(a[1..], b);
    }
  }

  /** Appending the chosen parts one after another to an empty buffer. */
  lemma AppendChain<T>(a: seq<T>, b: seq<T>, c: seq<T>, d: seq<T>, x: bool, y: bool, z: bool, w: bool)
    ensures var p0: seq<T> := [];
            var p1 := if x then p0 + a else p0;
            var p2 := if y then p1 + b else p1;
            var p3 := if z then p2 + c else p2;
            var p4 := if w then p3 + d else p3;
            p4 == (if x then a else []) + (if y then b else []) + (if z then c else []) + (if w then d else [])
  {
  }

  /** Concatenating the chosen parts of a four-part list, in order. */
  lemma FlattenChosen<T>(a: seq<T>, b: seq<T>, c: seq<T>, d: seq<T>, x: bool, y: bool, z: bool, w: bool)
    ensures Flatten((if x then [a] else []) + (if y then [b] else []) + (if z then [c] else []) + (if w then [d] else []))
         == (if x then a else []) + (if y then b else []) + (if z then c else []) + (if w then d else [])
  {
    var u, l, m, s := (if x then [a] else []), (if y then [b] else []), (if z then [c] else []), (if w then [d] else []);
    FlattenAppend(u + l + m, s);
    FlattenAppend(u + l, m);
    FlattenAppend(u, l);
    FlattenOptional(a, x);
    FlattenOptional(b, y);
    FlattenOptional(c, z);
    FlattenOptional(d, w);
  }

  lemma FlattenOptional<T>(a: seq<T>, x: bool)
    ensures Flatten(if x then [a] else []) == if x then a else []
  {
    if x {
      assert [a][1..] == [];
      assert a + [] == a;
    }
  }

  /** The reference pool, spelled out class by class. */
  lemma PoolOfSpelledOut(cs: ClassSet)
    ensures PoolOf(cs) == (if cs.upper then UpperAlpha else []) + (if cs.lower then LowerAlpha else [])
                        + (if cs.digits then DigitAlpha else []) + (if cs.special then SpecialAlpha else [])
  {
    var u, l, d, s := (if cs.upper then [UpperAlpha] else []), (if cs.lower then [LowerAlpha] else []),
                      (if cs.digits then [DigitAlpha] else []), (if cs.special then [SpecialAlpha] else []);
    assert Alphabets(Enabled(cs)) == u + l + d + s;
    FlattenChosen(UpperAlpha, LowerAlpha, DigitAlpha, SpecialAlpha, cs.upper, cs.lower, cs.digits, cs.special);
  }

  /** The enabled list holds exactly the enabled classes. */
  lemma EnabledHas(cs: ClassSet, k: CharClass)
    ensures k in Enabled(cs) <==> cs.Has(k)
  {
  }
}
