/** One invocation of the generator: interpret the arguments, build the pool
    from the requested classes, sample the password, and report the exit
    status (passgen.c:35-76, 78-128). The values `rand()` would return are
    the parameter `draws`; printing is reduced to the exit value. */
module PassGen {
  import opened Charsets
  import opened CStrings
  import opened Pool
  import opened Sampler
  import opened Args

  /** What `generate_password` produces. */
  datatype Generated =
    | Password(text: string)
      /** The pool came out empty; the source prints an error and exits. */
    | NoCharacterSets

  /** `generate_password`: the sampled password over the pool of the
      enabled classes, or failure when no class is enabled. */
  function GeneratePassword(length: nat, cs: ClassSet, draws: seq<nat>): (r: Generated)
    requires length < MaxLen && length <= |draws|
    ensures r.NoCharacterSets? <==> !cs.Any()
    ensures r.Password? ==> |r.text| == length
    ensures r.Password? ==> forall i :: 0 <= i < length ==> InClasses(r.text[i], cs)
    ensures r.Password? ==> forall i :: 0 <= i < length ==> r.text[i] == PoolOf(cs)[draws[i] % |PoolOf(cs)|]
  {
    match BuildPool(cs)
    case EmptyPool => NoCharacterSets
    case Pool(pool) =>
      assert forall ch :: ch in pool ==> InClasses(ch, cs) by {
        forall ch | ch in pool ensures InClasses(ch, cs) {
          PoolMembership(cs, ch);
        }
      }
      Password(Sample(pool, draws, length))
  }

  /** `generate_password` as the source runs it: the pool, then the loop
      over the static buffer, then the buffer read back as a C string. It
      computes exactly the functional model above. */
  method GenerateInBuffer(length: nat, cs: ClassSet, draws: seq<nat>) returns (r: Generated)
    requires length < MaxLen && length <= |draws|
    ensures r == GeneratePassword(length, cs, draws)
  {
    var built := BuildPool(cs);
    if built.EmptyPool? {
      return NoCharacterSets;
    }
    var pool := built.chars;
    AlphabetFacts();
    if '\0' in pool {
      PoolMembership(cs, '\0');
      assert false;
    }
    var buf := FillPassword(pool, draws, length);
    r := Password(CString(buf));
  }

  datatype Failure =
    | BadArgument(error: ArgError)
    | EmptyPoolFailure

  /** How one run of the program ends. */
  datatype Exit =
      /** The `--help` exit, with status 0. The usage text that it prints,
          and that an unknown option also prints before failing, is output
          and not part of the value. */
    | HelpExit
    | Failed(reason: Failure)
    | Printed(password: string)
  {
    /** The process exit status: `EXIT_FAILURE` only for failures. */
    function Code(): int
    {
      if Failed? then 1 else 0
    }
  }

  /** One run of `main` on the arguments after the program name. `draws`
      stands for the successive values of `rand()`; a request never asks for
      more than `MaxLen - 1` of them. */
  function Run(args: seq<string>, draws: seq<nat>): (e: Exit)
    requires MaxLen - 1 <= |draws|
    ensures e.HelpExit? <==> Parse(args).Help?
    ensures e.Failed? <==> Parse(args).Invalid?
    ensures e.Failed? ==> e.reason == BadArgument(Parse(args).error)
    ensures e.Printed? ==> Parse(args).Request? && |e.password| == Parse(args).length
    ensures e.Printed? ==> forall i :: 0 <= i < |e.password| ==> InClasses(e.password[i], Parse(args).classes)
    ensures e.Code() == 0 <==> !Parse(args).Invalid?
  {
    match Parse(args)
    case Help => HelpExit
    case Invalid(err) => Failed(BadArgument(err))
    case Request(length, cs) =>
      match GeneratePassword(length, cs, draws)
      case Password(text) => Printed(text)
      case NoCharacterSets => Failed(EmptyPoolFailure)
  }

  /** Every request leads to a printed password: the empty-pool error of
      `generate_password` cannot be reached from `main`. */
  lemma RequestsArePrinted(args: seq<string>, draws: seq<nat>)
    requires MaxLen - 1 <= |draws| && Parse(args).Request?
    ensures Run(args, draws).Printed?
    ensures Run(args, draws).password == Sample(PoolOf(Parse(args).classes), draws, Parse(args).length)
  {
  }

  /** Without class flags, the password draws only on upper-case letters,
      lower-case letters and digits. */
  lemma DefaultRunAvoidsSpecial(args: seq<string>, draws: seq<nat>)
    requires MaxLen - 1 <= |draws|
    requires forall t :: t in args ==> !IsClassFlag(t)
    ensures Run(args, draws).Printed? ==>
              forall i :: 0 <= i < |Run(args, draws).password| ==>
                var ch := Run(args, draws).password[i];
                ch in UpperAlpha || ch in LowerAlpha || ch in DigitAlpha
  {
    if Parse(args).Request? {
      DefaultClassesWithoutFlags(args);
    }
  }

  /* The example invocations of the usage text. Each lemma takes the
     argument list as a parameter that its precondition fixes to the
     literal, rather than applying `Run` to the literal directly. Each one
     goes through small facts of its own: the value `atoi` reads, and the
     flags as a run of class flags. This way the verifier takes a few
     symbolic steps of the scan. Otherwise it would have to evaluate the
     whole scan and the pool over literal strings in one proof, which costs
     far more. */

  lemma AtoiEight()
    ensures Atoi("8") == 8
  {
    assert Decimal(8) == "8";
    AtoiOfDecimal(8);
  }

  /** `--length 8 --special` asks for eight special characters. */
  lemma ParseEightSpecial(args: seq<string>)
    requires args == ["--length", "8", "--special"]
    ensures Parse(args) == Request(8, ClassSet(false, false, false, true))
  {
    AtoiEight();
    assert ["--special"] == FlagsOf([Special]);
    assert args == ["--length", "8"] + FlagsOf([Special]);
    LengthStep("8", FlagsOf([Special]), Initial);
    FlagsStep([Special], Options(8, NoClasses, 0));
  }

  /** `--length 8 --special`: eight characters, all special. */
  lemma EightSpecial(args: seq<string>, draws: seq<nat>)
    requires args == ["--length", "8", "--special"]
    requires MaxLen - 1 <= |draws|
    ensures var e := Run(args, draws);
            && e.Printed? && |e.password| == 8
            && forall i :: 0 <= i < 8 ==> e.password[i] in SpecialAlpha
  {
    ParseEightSpecial(args);
    RequestsArePrinted(args, draws);
  }

  /** The flags of the second scenario, as a run of class flags. */
  lemma AllFlags()
    ensures ["--upper", "--lower", "--digits", "--special"] == FlagsOf([Upper, Lower, Digit, Special])
    ensures EnableAll(Options(16, NoClasses, 0), [Upper, Lower, Digit, Special]) == Options(16, ClassSet(true, true, true, true), 4)
  {
    var ks := [Upper, Lower, Digit, Special];
    assert ks[1..] == [Lower, Digit, Special];
    assert ks[1..][1..] == [Digit, Special];
    assert ks[1..][1..][1..] == [Special];
  }

  /** `--lower --digits` asks for the default length over lower-case
      letters and digits only. */
  lemma ParseLowerDigits(args: seq<string>)
    requires args == ["--lower", "--digits"]
    ensures Parse(args) == Request(DefaultLength, ClassSet(false, true, true, false))
  {
    var ks := [Lower, Digit];
    assert ks[1..] == [Digit];
    assert args == FlagsOf(ks);
    FlagsStep(ks, Initial);
  }

  /** `--lower --digits`: twelve characters, each a lower-case letter or a
      digit. */
  lemma LowerDigits(args: seq<string>, draws: seq<nat>)
    requires args == ["--lower", "--digits"]
    requires MaxLen - 1 <= |draws|
    ensures var e := Run(args, draws);
            && e.Printed? && |e.password| == 12
            && forall i :: 0 <= i < 12 ==> e.password[i] in LowerAlpha || e.password[i] in DigitAlpha
  {
    ParseLowerDigits(args);
    RequestsArePrinted(args, draws);
  }

  lemma AtoiSixteen()
    ensures Atoi("16") == 16
  {
    assert Decimal(16) == "16";
    AtoiOfDecimal(16);
  }

  /** The scan of `--length 16` followed by a run of class flags. */
  lemma ScanSixteen(ks: seq<CharClass>)
    ensures Scan(["--length", "16"] + FlagsOf(ks), Initial) == Continue(EnableAll(Options(16, NoClasses, 0), ks))
  {
    AtoiSixteen();
    LengthStep("16", FlagsOf(ks), Initial);
    FlagsStep(ks, Options(16, NoClasses, 0));
  }

  /** Six tokens as an option with its operand, followed by four more. */
  lemma SplitPairOff<T>(a: T, b: T, c: T, d: T, e: T, f: T)
    ensures [a, b, c, d, e, f] == [a, b] + [c, d, e, f]
  {
  }

  /** `--length 16 --upper --lower --digits --special` asks for sixteen
      characters from all four classes. */
  lemma ParseSixteenAll(args: seq<string>)
    requires args == ["--length", "16", "--upper", "--lower", "--digits", "--special"]
    ensures Parse(args) == Request(16, ClassSet(true, true, true, true))
  {
    SplitPairOff("--length", "16", "--upper", "--lower", "--digits", "--special");
    AllFlags();
    ScanSixteen([Upper, Lower, Digit, Special]);
  }

  /** `--length 16 --upper --lower --digits --special`: sixteen characters
      from the full 88-character pool. */
  lemma SixteenFromEverything(args: seq<string>, draws: seq<nat>)
    requires args == ["--length", "16", "--upper", "--lower", "--digits", "--special"]
    requires MaxLen - 1 <= |draws|
    ensures var e := Run(args, draws);
            var all := ClassSet(true, true, true, true);
            && e.Printed? && |e.password| == 16 && |PoolOf(all)| == 88
            && forall i :: 0 <= i < 16 ==> e.password[i] in PoolOf(all)
  {
    ParseSixteenAll(args);
    RequestsArePrinted(args, draws);
  }

  lemma AtoiTwoHundred()
    ensures Atoi("200") == 200
  {
    assert Decimal(200) == "200";
    AtoiOfDecimal(200);
  }

  /** `--length 200`: rejected, nothing printed. */
  lemma TooLongRejected(args: seq<string>, draws: seq<nat>)
    requires args == ["--length", "200"]
    requires MaxLen - 1 <= |draws|
    ensures Run(args, draws) == Failed(BadArgument(LengthOutOfRange(200)))
  {
    AtoiTwoHundred();
    ClassifyFlags();
  }
}
