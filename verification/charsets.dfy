/** The four fixed character classes of the password generator, the buffer
    capacity shared by the pool and the password, and the set of enabled
    classes that the argument interpreter hands to the pool builder. */
module Charsets {

  /** Capacity in bytes of the pool buffer and of the password buffer,
      terminator included (passgen.c:16). */
  const MaxLen: nat := 128

  const UpperAlpha: string := "ABCDEFGHIJKLMNOPQRSTUVWXYZ"
  const LowerAlpha: string := "abcdefghijklmnopqrstuvwxyz"
  const DigitAlpha: string := "0123456789"
  const SpecialAlpha: string := "!@#$%^&*()-_=+[]{};',.<>?/"

  datatype CharClass = Upper | Lower | Digit | Special

  /** The alphabet that a class contributes to the pool. */
  function Alphabet(k: CharClass): string
  {
    match k
    case Upper => UpperAlpha
    case Lower => LowerAlpha
    case Digit => DigitAlpha
    case Special => SpecialAlpha
  }

  /** The four `use_*` switches of the source, one per class. */
  datatype ClassSet = ClassSet(upper: bool, lower: bool, digits: bool, special: bool)
  {
    predicate Has(k: CharClass)
    {
      match k
      case Upper => upper
      case Lower => lower
      case Digit => digits
      case Special => special
    }

    predicate Any()
    {
      upper || lower || digits || special
    }

    /** This set with class `k` switched on. */
    function With(k: CharClass): (r: ClassSet)
      ensures r.Has(k) && forall j :: j != k ==> r.Has(j) == Has(j)
    {
      match k
      case Upper => this.(upper := true)
      case Lower => this.(lower := true)
      case Digit => this.(digits := true)
      case Special => this.(special := true)
    }
  }

  const NoClasses: ClassSet := ClassSet(false, false, false, false)

  /** The classes used when no class flag is given: everything but Special. */
  const DefaultClasses: ClassSet := ClassSet(true, true, true, false)

  /** The enabled classes, in the pool order Upper, Lower, Digit, Special. */
  function Enabled(cs: ClassSet): seq<CharClass>
  {
    (if cs.upper then [Upper] else []) + (if cs.lower then [Lower] else [])
    + (if cs.digits then [Digit] else []) + (if cs.special then [Special] else [])
  }

  /** The alphabets of `ks`, in order. */
  function Alphabets(ks: seq<CharClass>): seq<string>
  {
    seq(|ks|, i requires 0 <= i < |ks| => Alphabet(ks[i]))
  }

  /** The parts, concatenated in order. */
  function Flatten<T>(parts: seq<seq<T>>): seq<T>
  {
    if |parts| == 0 then [] else parts[0] + Flatten(parts[1..])
  }

  /** The pool a set of classes denotes: their alphabets, concatenated in
      pool order. */
  function PoolOf(cs: ClassSet): string
  {
    Flatten(Alphabets(Enabled(cs)))
  }

  /** `ch` belongs to the alphabet of some enabled class. */
  predicate InClasses(ch: char, cs: ClassSet)
  {
    exists k: CharClass :: cs.Has(k) && ch in Alphabet(k)
  }

  function Indicator(b: bool): nat
  {
    if b then 1 else 0
  }

  /** The sizes of the alphabets, and that no alphabet holds the C string
      terminator. */
  lemma AlphabetFacts()
    ensures |UpperAlpha| == 26 && |LowerAlpha| == 26
    ensures |DigitAlpha| == 10 && |SpecialAlpha| == 26
    ensures forall k: CharClass :: '\0' !in Alphabet(k)
  {
    forall k: CharClass ensures '\0' !in Alphabet(k) {
      var a := Alphabet(k);
      forall i | 0 <= i < |a| ensures a[i] != '\0' {
      }
    }
  }
}
