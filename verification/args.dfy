/** The argument interpreter of `main` (passgen.c:80-121): the arguments
    after the program name are read left to right; `--help` and every error
    end the scan at once, `--length` consumes the token after it, and the
    class flags switch their class on and count how many were given. When no
    class flag was seen the default classes are substituted. */
module Args {
  import opened Charsets
  import opened CStrings

  const DefaultLength: int := 12

  datatype ArgError =
    | MissingLengthValue
      /** The operand of `--length`, as `atoi` read it, is not in 1..127. */
    | LengthOutOfRange(value: int)
    | UnknownOption(token: string)

  /** What the interpreter decides. */
  datatype Outcome =
    | Help
    | Invalid(error: ArgError)
    | Request(length: int, classes: ClassSet)

  /** The locals of `main` while the arguments are scanned. */
  datatype Options = Options(length: int, classes: ClassSet, flagCount: nat)

  const Initial: Options := Options(DefaultLength, NoClasses, 0)

  /** Either the scan ended early with an outcome, or it consumed every
      argument and these are the resulting options. */
  datatype Step = Stop(outcome: Outcome) | Continue(opts: Options)

  /** Which branch of the `strcmp` chain a token takes. */
  datatype Token = HelpFlag | LengthFlag | ClassFlag(cls: CharClass) | Unrecognised

  /** The `strcmp` chain of the loop body, in the source's order. */
  function Classify(t: string): Token
  {
    if t == "--help" then HelpFlag
    else if t == "--length" then LengthFlag
    else if t == "--upper" then ClassFlag(Upper)
    else if t == "--lower" then ClassFlag(Lower)
    else if t == "--digits" then ClassFlag(Digit)
    else if t == "--special" then ClassFlag(Special)
    else Unrecognised
  }

  /** The flag that switches a class on. */
  function FlagOf(k: CharClass): string
  {
    match k
    case Upper => "--upper"
    case Lower => "--lower"
    case Digit => "--digits"
    case Special => "--special"
  }

  predicate IsClassFlag(t: string)
  {
    Classify(t).ClassFlag?
  }

  predicate IsKnown(t: string)
  {
    !Classify(t).Unrecognised?
  }

  /** The six recognised spellings are told apart: each is classified as
      its own branch, and every class flag names its class. */
  lemma ClassifyFlags()
    ensures Classify("--help") == HelpFlag && Classify("--length") == LengthFlag
    ensures forall k :: Classify(FlagOf(k)) == ClassFlag(k)
  {
    assert "--upper"[2] != "--lower"[2];
    assert "--digits"[2] != "--length"[2];
    forall k: CharClass ensures Classify(FlagOf(k)) == ClassFlag(k) {
      match k
      case Upper =>
      case Lower =>
      case Digit =>
      case Special =>
    }
  }

  /** A recognised token is one of the six spellings, each starting with
      two dashes. */
  lemma ClassifyExact(t: string)
    ensures Classify(t) == HelpFlag ==> t == "--help"
    ensures Classify(t) == LengthFlag ==> t == "--length"
    ensures Classify(t).ClassFlag? ==> t == FlagOf(Classify(t).cls)
    ensures IsKnown(t) ==> |t| >= 2 && t[0] == '-' && t[1] == '-'
  {
  }

  predicate ValidLength(n: int)
  {
    0 < n < MaxLen
  }

  /** The options stay well formed: an accepted length, and a class switched
      on once a class flag was counted. */
  predicate WellFormed(o: Options)
  {
    ValidLength(o.length) && (o.flagCount > 0 ==> o.classes.Any())
  }

  /** The effect of one class flag: its class is on and the count goes up. */
  function Enable(o: Options, k: CharClass): Options
  {
    o.(classes := o.classes.With(k), flagCount := o.flagCount + 1)
  }

  /** The argument loop of `main`. */
  function Scan(args: seq<string>, o: Options): (s: Step)
    ensures s.Stop? ==> !s.outcome.Request?
    ensures s.Stop? && s.outcome.Invalid? && s.outcome.error.LengthOutOfRange? ==> !ValidLength(s.outcome.error.value)
    ensures s.Continue? && WellFormed(o) ==> WellFormed(s.opts)
    ensures s.Continue? ==> s.opts.flagCount >= o.flagCount
    decreases |args|
  {
    if |args| == 0 then Continue(o)
    else
      match Classify(args[0])
      case HelpFlag => Stop(Help)
      case LengthFlag =>
        if |args| < 2 then Stop(Invalid(MissingLengthValue))
        else
          var n := Atoi(args[1]);
          if !ValidLength(n) then Stop(Invalid(LengthOutOfRange(n)))
          else Scan(args[2..], o.(length := n))
      case ClassFlag(k) => Scan(args[1..], Enable(o, k))
      case Unrecognised => Stop(Invalid(UnknownOption(args[0])))
  }

  /** After the loop: when no class flag was counted, switch on Upper,
      Lower and Digit; Special keeps whatever value it had. */
  function Finish(o: Options): (out: Outcome)
    ensures out.Request? && out.length == o.length
    ensures forall k :: out.classes.Has(k) <==> o.classes.Has(k) || (o.flagCount == 0 && k != Special)
  {
    Request(o.length, if o.flagCount == 0 then o.classes.(upper := true, lower := true, digits := true) else o.classes)
  }

  function Conclude(s: Step): Outcome
  {
    match s
    case Stop(out) => out
    case Continue(o) => Finish(o)
  }

  /** The interpreter: every request it produces has a length in 1..127 and
      at least one class. */
  function Parse(args: seq<string>): (out: Outcome)
    ensures out.Request? ==> ValidLength(out.length) && out.classes.Any()
  {
    Conclude(Scan(args, Initial))
  }

  /** Scanning is left to right: once a prefix has been scanned without
      stopping, the rest is scanned from the options it left. */
  lemma {:induction false} ScanPrefix(pre: seq<string>, rest: seq<string>, o: Options)
    requires Scan(pre, o).Continue?
    ensures Scan(pre + rest, o) == Scan(rest, Scan(pre, o).opts)
    decreases |pre|
  {
    if |pre| > 0 {
      assert (pre + rest)[0] == pre[0];
      match Classify(pre[0])
      case LengthFlag =>
        assert (pre + rest)[1] == pre[1];
        assert (pre + rest)[2..] == pre[2..] + rest;
        ScanPrefix(pre[2..], rest, o.(length := Atoi(pre[1])));
      case ClassFlag(k) =>
        assert (pre + rest)[1..] == pre[1..] + rest;
        ScanPrefix(pre[1..], rest, Enable(o, k));
    } else {
      assert pre + rest == rest;
    }
  }

  /** A prefix that already stopped the scan decides the outcome, unless it
      stopped only because `--length` was its last token. */
  lemma {:induction false} ScanStopped(pre: seq<string>, rest: seq<string>, o: Options)
    requires Scan(pre, o).Stop? && Scan(pre, o).outcome != Invalid(MissingLengthValue)
    ensures Scan(pre + rest, o) == Scan(pre, o)
    decreases |pre|
  {
    assert (pre + rest)[0] == pre[0];
    match Classify(pre[0])
    case HelpFlag =>
    case Unrecognised =>
    case LengthFlag =>
      assert (pre + rest)[1] == pre[1];
      if ValidLength(Atoi(pre[1])) {
        assert (pre + rest)[2..] == pre[2..] + rest;
        ScanStopped(pre[2..], rest, o.(length := Atoi(pre[1])));
      }
    case ClassFlag(k) =>
      assert (pre + rest)[1..] == pre[1..] + rest;
      ScanStopped(pre[1..], rest, Enable(o, k));
  }

  /** One token between a prefix and a suffix, grouped from the right. */
  lemma Insert<T>(pre: seq<T>, x: T, post: seq<T>)
    ensures pre + [x] + post == pre + ([x] + post)
  {
  }

  /** An option with its operand between a prefix and a suffix, grouped
      from the right; the suffix is what is left after the two. */
  lemma InsertPair<T>(pre: seq<T>, x: T, y: T, post: seq<T>)
    ensures pre + [x, y] + post == pre + ([x, y] + post)
    ensures ([x, y] + post)[2..] == post
  {
  }

  /** `--help` ends the scan successfully, whatever follows it, once the
      tokens before it were accepted. */
  lemma HelpShortCircuits(pre: seq<string>, post: seq<string>)
    requires Scan(pre, Initial).Continue?
    ensures Parse(pre + ["--help"] + post) == Help
  {
    ClassifyFlags();
    Insert(pre, "--help", post);
    ScanPrefix(pre, ["--help"] + post, Initial);
  }

  /** An unrecognised token fails at once, whatever follows it. */
  lemma UnknownOptionFails(pre: seq<string>, t: string, post: seq<string>)
    requires Scan(pre, Initial).Continue? && !IsKnown(t)
    ensures Parse(pre + [t] + post) == Invalid(UnknownOption(t))
  {
    assert pre + [t] + post == pre + ([t] + post);
    ScanPrefix(pre, [t] + post, Initial);
  }

  /** Scanning a prefix that starts with an accepted `--length` operand. */
  lemma LengthPrefix(args: seq<string>, j: nat, o: Options)
    requires |args| >= 2 && Classify(args[0]) == LengthFlag && ValidLength(Atoi(args[1]))
    requires j <= |args| - 2
    ensures Scan(args[..j + 2], o) == Scan(args[2..][..j], o.(length := Atoi(args[1])))
  {
    var p := args[..j + 2];
    assert p[0] == args[0] && p[1] == args[1];
    assert p[2..] == args[2..][..j];
  }

  /** Scanning a prefix that starts with a class flag. */
  lemma FlagPrefix(args: seq<string>, j: nat, o: Options, k: CharClass)
    requires |args| >= 1 && Classify(args[0]) == ClassFlag(k)
    requires j <= |args| - 1
    ensures Scan(args[..j + 1], o) == Scan(args[1..][..j], Enable(o, k))
  {
    var p := args[..j + 1];
    assert p[0] == args[0];
    assert p[1..] == args[1..][..j];
  }

  /** The converse of `HelpShortCircuits`: the scan ends with help only at
      a `--help` token that it reached with every earlier token accepted. */
  lemma {:induction false} HelpOnlyFromFlag(args: seq<string>, o: Options)
    requires Scan(args, o) == Stop(Help)
    ensures exists i :: 0 <= i < |args| && args[i] == "--help" && Scan(args[..i], o).Continue?
    decreases |args|
  {
    ClassifyExact(args[0]);
    match Classify(args[0])
    case HelpFlag =>
      assert args[..0] == [];
      assert args[0] == "--help" && Scan(args[..0], o).Continue?;
    case LengthFlag =>
      var o' := o.(length := Atoi(args[1]));
      HelpOnlyFromFlag(args[2..], o');
      var j :| 0 <= j < |args[2..]| && args[2..][j] == "--help" && Scan(args[2..][..j], o').Continue?;
      LengthPrefix(args, j, o);
      assert args[j + 2] == "--help" && Scan(args[..j + 2], o).Continue?;
    case ClassFlag(k) =>
      HelpOnlyFromFlag(args[1..], Enable(o, k));
      var j :| 0 <= j < |args[1..]| && args[1..][j] == "--help" && Scan(args[1..][..j], Enable(o, k)).Continue?;
      FlagPrefix(args, j, o, k);
      assert args[j + 1] == "--help" && Scan(args[..j + 1], o).Continue?;
  }

  /** The converse of `UnknownOptionFails`: the scan fails with an unknown
      option only at an unrecognised token of the arguments, reached with
      every earlier token accepted. */
  lemma {:induction false} UnknownOnlyFromToken(args: seq<string>, o: Options, t: string)
    requires Scan(args, o) == Stop(Invalid(UnknownOption(t)))
    ensures !IsKnown(t)
    ensures exists i :: 0 <= i < |args| && args[i] == t && Scan(args[..i], o).Continue?
    decreases |args|
  {
    match Classify(args[0])
    case Unrecognised =>
      assert args[..0] == [];
      assert args[0] == t && Scan(args[..0], o).Continue?;
    case LengthFlag =>
      var o' := o.(length := Atoi(args[1]));
      UnknownOnlyFromToken(args[2..], o', t);
      var j :| 0 <= j < |args[2..]| && args[2..][j] == t && Scan(args[2..][..j], o').Continue?;
      LengthPrefix(args, j, o);
      assert args[j + 2] == t && Scan(args[..j + 2], o).Continue?;
    case ClassFlag(k) =>
      UnknownOnlyFromToken(args[1..], Enable(o, k), t);
      var j :| 0 <= j < |args[1..]| && args[1..][j] == t && Scan(args[1..][..j], Enable(o, k)).Continue?;
      FlagPrefix(args, j, o, k);
      assert args[j + 1] == t && Scan(args[..j + 1], o).Continue?;
  }

  /** `--length` as the last token has no operand and fails. */
  lemma MissingLengthFails(pre: seq<string>)
    requires Scan(pre, Initial).Continue?
    ensures Parse(pre + ["--length"]) == Invalid(MissingLengthValue)
  {
    ClassifyFlags();
    ScanPrefix(pre, ["--length"], Initial);
  }

  /** The operand of `--length` is accepted exactly when `atoi` reads it as
      a number in 1..127; otherwise the scan fails with that number. */
  lemma LengthChecked(pre: seq<string>, v: string, post: seq<string>)
    requires Scan(pre, Initial).Continue?
    ensures var out := Parse(pre + ["--length", v] + post);
            out == Invalid(LengthOutOfRange(Atoi(v))) <==> !ValidLength(Atoi(v))
  {
    ClassifyFlags();
    var o := Scan(pre, Initial).opts;
    InsertPair(pre, "--length", v, post);
    ScanPrefix(pre, ["--length", v] + post, Initial);
    if ValidLength(Atoi(v)) {
      var s := Scan(post, o.(length := Atoi(v)));
      assert s.Continue? ==> WellFormed(s.opts) && Finish(s.opts).Request?;
    }
  }

  /** Text without digits, a flag included, is read by `atoi` as 0 and so
      rejected as a length. */
  lemma NonNumericLengthFails(pre: seq<string>, v: string, post: seq<string>)
    requires Scan(pre, Initial).Continue?
    requires forall i :: 0 <= i < |v| ==> !IsDigit(v[i])
    ensures Parse(pre + ["--length", v] + post) == Invalid(LengthOutOfRange(0))
  {
    AtoiOfNonNumeric(v);
    LengthChecked(pre, v, post);
  }

  /** An accepted `--length` operand consumes two tokens and sets the
      length. */
  lemma LengthStep(v: string, rest: seq<string>, o: Options)
    requires ValidLength(Atoi(v))
    ensures Scan(["--length", v] + rest, o) == Scan(rest, o.(length := Atoi(v)))
  {
    ClassifyFlags();
    assert (["--length", v] + rest)[2..] == rest;
  }

  /** A class flag consumes one token and switches its class on. */
  lemma FlagStep(k: CharClass, rest: seq<string>, o: Options)
    ensures Scan([FlagOf(k)] + rest, o) == Scan(rest, Enable(o, k))
  {
    ClassifyFlags();
    assert ([FlagOf(k)] + rest)[1..] == rest;
  }

  /** The flags of the classes `ks`, in order. */
  function FlagsOf(ks: seq<CharClass>): seq<string>
  {
    seq(|ks|, i requires 0 <= i < |ks| => FlagOf(ks[i]))
  }

  /** The options after switching on the classes `ks` one after another. */
  function EnableAll(o: Options, ks: seq<CharClass>): Options
    decreases |ks|
  {
    if |ks| == 0 then o else EnableAll(Enable(o, ks[0]), ks[1..])
  }

  /** A run of class flags is accepted and switches their classes on. */
  lemma {:induction false} FlagsStep(ks: seq<CharClass>, o: Options)
    ensures Scan(FlagsOf(ks), o) == Continue(EnableAll(o, ks))
  {
    if |ks| > 0 {
      assert FlagsOf(ks) == [FlagOf(ks[0])] + FlagsOf(ks[1..]);
      FlagStep(ks[0], FlagsOf(ks[1..]), o);
      FlagsStep(ks[1..], Enable(o, ks[0]));
    }
  }

  /** An operand of `--length` outside 1..127 fails the scan at once,
      whatever follows it. */
  lemma LengthStop(v: string, rest: seq<string>, o: Options)
    requires !ValidLength(Atoi(v))
    ensures Scan(["--length", v] + rest, o) == Stop(Invalid(LengthOutOfRange(Atoi(v))))
  {
    ClassifyFlags();
  }

  /** Without `--length` among the tokens, the scan does not depend on the
      length: started from two lengths, it stops the same way, or completes
      with options that differ only in the length; and it never stops for a
      missing operand. */
  lemma {:induction false} ScanLengthBlind(args: seq<string>, o: Options, n: int)
    requires "--length" !in args
    ensures Scan(args, o).Stop? <==> Scan(args, o.(length := n)).Stop?
    ensures Scan(args, o).Stop? ==> Scan(args, o) == Scan(args, o.(length := n))
    ensures Scan(args, o).Stop? ==> Scan(args, o).outcome != Invalid(MissingLengthValue)
    ensures Scan(args, o).Continue? ==> Scan(args, o.(length := n)).opts == Scan(args, o).opts.(length := n)
    decreases |args|
  {
    if |args| > 0 {
      ClassifyExact(args[0]);
      assert args[0] in args;
      match Classify(args[0])
      case HelpFlag =>
      case Unrecognised =>
      case ClassFlag(k) =>
        assert "--length" !in args[1..];
        assert Enable(o.(length := n), k) == Enable(o, k).(length := n);
        ScanLengthBlind(args[1..], Enable(o, k), n);
    }
  }

  /** From two lengths, the scan of `--length b` and what follows decides
      the same. */
  lemma LengthOverrides(b: string, post: seq<string>, o: Options, n: int)
    ensures Scan(["--length", b] + post, o) == Scan(["--length", b] + post, o.(length := n))
  {
    if ValidLength(Atoi(b)) {
      LengthStep(b, post, o);
      LengthStep(b, post, o.(length := n));
      assert o.(length := n).(length := Atoi(b)) == o.(length := Atoi(b));
    } else {
      LengthStop(b, post, o);
      LengthStop(b, post, o.(length := n));
    }
  }

  /** Tokens without `--length`, then `--length b` and the rest: the
      length the scan started from is forgotten. */
  lemma LengthForgotten(mid: seq<string>, b: string, post: seq<string>, o: Options, n: int)
    requires "--length" !in mid
    ensures Scan(mid + (["--length", b] + post), o) == Scan(mid + (["--length", b] + post), o.(length := n))
  {
    var tail := ["--length", b] + post;
    ScanLengthBlind(mid, o, n);
    if Scan(mid, o).Stop? {
      ScanStopped(mid, tail, o);
      ScanStopped(mid, tail, o.(length := n));
    } else {
      ScanPrefix(mid, tail, o);
      ScanPrefix(mid, tail, o.(length := n));
      LengthOverrides(b, post, Scan(mid, o).opts, n);
    }
  }

  /** A later `--length` overrides an earlier accepted one, wherever it
      comes: once the earlier operand is accepted and no other `--length`
      lies between them, the earlier pair can be left out. */
  /** The two argument lists of `LaterLengthWins`, grouped from the right. */
  lemma Regroup<T>(pre: seq<T>, x: T, y: T, mid: seq<T>, z: T, w: T, post: seq<T>)
    ensures pre + [x, y] + mid + [z, w] + post == pre + ([x, y] + (mid + ([z, w] + post)))
    ensures pre + mid + [z, w] + post == pre + (mid + ([z, w] + post))
  {
  }

  lemma LaterLengthWins(pre: seq<string>, a: string, mid: seq<string>, b: string, post: seq<string>)
    requires Scan(pre, Initial).Continue? && ValidLength(Atoi(a)) && "--length" !in mid
    ensures Parse(pre + ["--length", a] + mid + ["--length", b] + post)
         == Parse(pre + mid + ["--length", b] + post)
  {
    var o := Scan(pre, Initial).opts;
    var rest := mid + (["--length", b] + post);
    Regroup(pre, "--length", a, mid, "--length", b, post);
    ScanPrefix(pre, ["--length", a] + rest, Initial);
    ScanPrefix(pre, rest, Initial);
    LengthStep(a, rest, o);
    LengthForgotten(mid, b, post, o, Atoi(a));
  }

  /** No recognised token reads as a number. */
  lemma KnownTokensAreNotNumbers(t: string)
    requires IsKnown(t)
    ensures Atoi(t) == 0
  {
    ClassifyExact(t);
    assert SkipSpace(t) == t;
    assert LeadingDigits(t[1..]) == [];
  }

  /** In a completed scan the operand of `--length` is never a flag. */
  lemma LengthOperand(args: seq<string>, o: Options)
    requires |args| > 0 && Scan(args, o).Continue? && Classify(args[0]) == LengthFlag
    ensures |args| >= 2 && !IsKnown(args[1])
  {
    if IsKnown(args[1]) {
      KnownTokensAreNotNumbers(args[1]);
    }
  }

  /** Membership in a sequence of at least two elements, split after the
      first two. */
  lemma SplitAfterTwo<T>(s: seq<T>, x: T)
    requires |s| >= 2
    ensures x in s <==> x == s[0] || x == s[1] || x in s[2..]
  {
    assert s == [s[0], s[1]] + s[2..];
  }

  /** In a completed scan the operand of `--length` is never a flag, so
      the tokens after the first two are exactly the rest. */
  lemma LengthTail(args: seq<string>, o: Options, t: string)
    requires |args| > 0 && Scan(args, o).Continue? && Classify(args[0]) == LengthFlag
    ensures |args| >= 2 && !IsKnown(args[1])
    ensures t in args <==> t == args[0] || t == args[1] || t in args[2..]
  {
    LengthOperand(args, o);
    SplitAfterTwo(args, t);
  }

  /** In a completed scan every token that is not `--length` or its operand
      is a class flag. */
  lemma FlagTail(args: seq<string>, o: Options, t: string)
    requires |args| > 0 && Scan(args, o).Continue? && Classify(args[0]) != LengthFlag
    ensures IsClassFlag(args[0])
    ensures t in args <==> t == args[0] || t in args[1..]
  {
    assert args == [args[0]] + args[1..];
  }

  /** A completed scan switches a class on exactly when its flag occurs. */
  lemma {:induction false} ScanSetsClass(args: seq<string>, o: Options, k: CharClass)
    requires Scan(args, o).Continue?
    ensures Scan(args, o).opts.classes.Has(k) <==> o.classes.Has(k) || FlagOf(k) in args
    decreases |args|
  {
    if |args| > 0 {
      ClassifyFlags();
      ClassifyExact(args[0]);
      match Classify(args[0])
      case LengthFlag =>
        LengthTail(args, o, FlagOf(k));
        ClassifyExact(args[1]);
        ScanSetsClass(args[2..], o.(length := Atoi(args[1])), k);
      case ClassFlag(j) =>
        FlagTail(args, o, FlagOf(k));
        ScanSetsClass(args[1..], Enable(o, j), k);
    }
  }

  /** A completed scan counts a class flag exactly when one occurs. */
  lemma {:induction false} ScanCountsFlags(args: seq<string>, o: Options)
    requires Scan(args, o).Continue?
    ensures Scan(args, o).opts.flagCount > 0 <==> o.flagCount > 0 || exists t :: t in args && IsClassFlag(t)
    decreases |args|
  {
    if |args| > 0 {
      match Classify(args[0])
      case LengthFlag =>
        LengthTail(args, o, "");
        ScanCountsFlags(args[2..], o.(length := Atoi(args[1])));
        assert args == [args[0], args[1]] + args[2..];
      case ClassFlag(k) =>
        FlagTail(args, o, "");
        ScanCountsFlags(args[1..], Enable(o, k));
        assert args[0] in args;
        assert forall t :: t in args[1..] ==> t in args;
    }
  }

  /** A completed scan changes the length only through `--length`. */
  lemma {:induction false} ScanKeepsLength(args: seq<string>, o: Options)
    requires Scan(args, o).Continue? && "--length" !in args
    ensures Scan(args, o).opts.length == o.length
    decreases |args|
  {
    if |args| > 0 {
      ClassifyExact(args[0]);
      assert args[0] != "--length";
      assert "--length" !in args[1..];
      ScanKeepsLength(args[1..], Enable(o, Classify(args[0]).cls));
    }
  }

  /** The classes of a request: each of Upper, Lower and Digit is on exactly
      when its flag occurs or no class flag occurs at all; Special is on
      exactly when its flag occurs. */
  lemma RequestClasses(args: seq<string>)
    requires Parse(args).Request?
    ensures var cs := Parse(args).classes;
            var none := forall t :: t in args ==> !IsClassFlag(t);
            && (cs.upper <==> "--upper" in args || none)
            && (cs.lower <==> "--lower" in args || none)
            && (cs.digits <==> "--digits" in args || none)
            && (cs.special <==> "--special" in args)
  {
    ClassifyFlags();
    ScanCountsFlags(args, Initial);
    ScanSetsClass(args, Initial, Upper);
    ScanSetsClass(args, Initial, Lower);
    ScanSetsClass(args, Initial, Digit);
    ScanSetsClass(args, Initial, Special);
    assert FlagOf(Special) == "--special";
  }

  /** Without any class flag the request uses Upper, Lower and Digit and
      leaves Special out. */
  lemma DefaultClassesWithoutFlags(args: seq<string>)
    requires Parse(args).Request?
    requires forall t :: t in args ==> !IsClassFlag(t)
    ensures Parse(args).classes == DefaultClasses
  {
    RequestClasses(args);
  }

  /** Without `--length` the request has the default length 12. */
  lemma DefaultLengthWithoutFlag(args: seq<string>)
    requires Parse(args).Request? && "--length" !in args
    ensures Parse(args).length == DefaultLength
  {
    ScanKeepsLength(args, Initial);
  }

  /** The scan looks at the flag count only to tell zero from non-zero. */
  lemma {:induction false} ScanCountBlind(args: seq<string>, o: Options, p: Options)
    requires o.length == p.length && o.classes == p.classes
    requires o.flagCount == 0 <==> p.flagCount == 0
    ensures Conclude(Scan(args, o)) == Conclude(Scan(args, p))
    decreases |args|
  {
    if |args| > 0 {
      match Classify(args[0])
      case HelpFlag =>
      case Unrecognised =>
      case LengthFlag =>
        if |args| >= 2 {
          ScanCountBlind(args[2..], o.(length := Atoi(args[1])), p.(length := Atoi(args[1])));
        }
      case ClassFlag(k) =>
        ScanCountBlind(args[1..], Enable(o, k), Enable(p, k));
    }
  }

  /** A class flag whose class is already on, after some flag was counted,
      changes nothing the outcome depends on. */
  lemma RepeatStep(k: CharClass, post: seq<string>, o: Options)
    requires o.classes.Has(k) && o.flagCount > 0
    ensures Conclude(Scan([FlagOf(k)] + post, o)) == Conclude(Scan(post, o))
  {
    FlagStep(k, post, o);
    assert o.classes.With(k) == o.classes;
    ScanCountBlind(post, Enable(o, k), o);
  }

  /** Giving a class flag a second time, anywhere after the first and once
      the tokens up to it were accepted, decides the same as leaving the
      repeat out: the flag only sets its switch again. */
  lemma RepeatedFlagIdempotent(pre: seq<string>, k: CharClass, mid: seq<string>, post: seq<string>)
    requires Scan(pre + [FlagOf(k)] + mid, Initial).Continue?
    ensures Parse(pre + [FlagOf(k)] + mid + [FlagOf(k)] + post) == Parse(pre + [FlagOf(k)] + mid + post)
  {
    var f := FlagOf(k);
    var first := pre + [f] + mid;
    var o := Scan(first, Initial).opts;
    assert pre + [f] + mid + [f] + post == first + ([f] + post);
    assert pre + [f] + mid + post == first + post;
    ScanPrefix(first, [f] + post, Initial);
    ScanPrefix(first, post, Initial);
    assert first[|pre|] == f;
    ScanSetsClass(first, Initial, k);
    ClassifyFlags();
    ScanCountsFlags(first, Initial);
    RepeatStep(k, post, o);
  }
}
