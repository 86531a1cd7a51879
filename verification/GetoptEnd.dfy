/**
 * When getopt() reports -1: at the end of the scan, and for a long option that has -1 for its value.
 * Here is exactly when the second cannot happen.
 */
module GetoptEnds {
  import opened Getopts

  /** The longest beginning of a long option's name that can be typed; a '=' ends it. */
  function Base(name: string): string {
    name[..NameEnd(name)]
  }

  /** "-W name" is described, which allows the name to be empty. */
  predicate TakesW(cfg: Config) {
    var at := IndexOf(cfg.optstring, 'W');
    at >= 0 && Described(cfg, at, 1, ';')
  }

  /** Long option k can be selected and then reports -1. */
  predicate MinusOneAt(cfg: Config, opts: seq<LongOpt>, k: nat) {
    && k < |opts| && !opts[k].flagged && opts[k].val == -1
    && Selected(opts, Base(opts[k].name)) == Found(k)
    && (Base(opts[k].name) != "" || !opts[k].hasArg.NoArgument? || TakesW(cfg))
  }

  ghost predicate MinusOne(cfg: Config) {
    cfg.longOptions.Some? && exists k: nat :: MinusOneAt(cfg, cfg.longOptions.value, k)
  }

  /** -1 is reported exactly when the scan ends. */
  ghost predicate OnlyAtEnd(cfg: Config, argv: seq<string>, s: Scan)
    requires ScanOk(cfg, argv, s) && !s.done
  {
    Call(cfg, argv, s).0 == -1 <==> Call(cfg, argv, s).1.done
  }

  // ---- Selecting by as much of the name as can be typed ----

  lemma {:induction false} NameEndIs(s: string)
    ensures forall i | 0 <= i < NameEnd(s) :: s[i] != '='
    ensures NameEnd(s) < |s| ==> s[NameEnd(s)] == '='
  {
  }

  /** Whatever selects option k, the longest beginning of its name does. */
  lemma SelectedByBase(opts: seq<LongOpt>, name: string, k: nat)
    requires Selected(opts, name) == Found(k) && forall i | 0 <= i < |name| :: name[i] != '='
    ensures k < |opts| && Selected(opts, Base(opts[k].name)) == Found(k) && StartsWith(Base(opts[k].name), name)
  {
    SelectedSelects(opts, name);
    var full := opts[k].name;
    var base := Base(full);
    NameEndIs(full);
    assert Selects(opts, base, Found(k));
    SelectedSelects(opts, base);
    SelectsOne(opts, base, Found(k), Selected(opts, base));
  }

  // ---- -1 only at the end ----

  /** A long option that was found reports -1 only if it is one of those. */
  lemma CheckLongIs(cfg: Config, opts: seq<LongOpt>, argv: seq<string>, p: Parse)
    requires p.optind < |argv| && CheckLong(cfg, opts, argv, p).0 && CheckLong(cfg, opts, argv, p).1 == -1
    requires p.nextchar != "" || TakesW(cfg)
    ensures exists k: nat :: MinusOneAt(cfg, opts, k)
  {
    var name := p.nextchar[..NameEnd(p.nextchar)];
    NameEndIs(p.nextchar);
    match Selected(opts, name) {
      case Found(k) =>
        SelectedByBase(opts, name, k);
        if p.nextchar != "" && name == "" { assert NameEnd(p.nextchar) == 0 != |p.nextchar|; }
        assert MinusOneAt(cfg, opts, k);
      case _ =>
    }
  }

  lemma NoLongOptions(cfg: Config, k: nat)
    ensures !MinusOneAt(cfg, [], k)
  {
  }

  lemma LongByWIs(cfg: Config, argv: seq<string>, q: Parse)
    requires q.optind <= |argv| && (q.nextchar != "" ==> q.optind < |argv|) && TakesW(cfg)
    requires LongByW(cfg, argv, q).0 == -1
    ensures MinusOne(cfg)
  {
    var name := if q.nextchar != "" then q.nextchar else argv[q.optind];
    var opts := if cfg.longOptions.Some? then cfg.longOptions.value else [];
    CheckLongIs(cfg, opts, argv, q.(nextchar := name, optarg := Some(name)));
    var k: nat :| MinusOneAt(cfg, opts, k);
    if cfg.longOptions.None? { NoLongOptions(cfg, k); }
  }

  lemma ShortIs(cfg: Config, argv: seq<string>, p: Parse)
    requires cfg.Valid() && p.optind < |argv| && p.nextchar != "" && Short(cfg, argv, p).0 == -1
    ensures MinusOne(cfg)
  {
    LongByWIs(cfg, argv, Taken(p));
  }

  lemma DecodeIs(cfg: Config, argv: seq<string>, p: Parse)
    requires cfg.Valid() && p.optind < |argv| && |argv[p.optind]| >= 2 && p.nextchar != ""
    requires Decode(cfg, argv, p).0 == -1
    ensures MinusOne(cfg)
  {
    if cfg.TriesLong(argv[p.optind]) {
      var (handled, ret, q) := CheckLong(cfg, cfg.longOptions.value, argv, p);
      if handled {
        CheckLongIs(cfg, cfg.longOptions.value, argv, p);
      } else {
        CheckLongMoves(cfg, cfg.longOptions.value, argv, p);
        ShortIs(cfg, argv, q);
      }
    } else {
      ShortIs(cfg, argv, p);
    }
  }

  lemma TakeIs(cfg: Config, argv: seq<string>, s: Scan)
    requires ScanOk(cfg, argv, s) && s.p.nextchar != "" && Take(cfg, argv, s).0 == -1
    ensures MinusOne(cfg)
  {
    DecodeIs(cfg, argv, s.p);
  }

  /** A call that reports -1 without ending the scan has decoded an option. */
  lemma EarlyMinusOne(cfg: Config, argv: seq<string>, s: Scan)
    requires ScanOk(cfg, argv, s) && !s.done && !OnlyAtEnd(cfg, argv, s)
    ensures MinusOne(cfg)
  {
    var p := s.p.(optarg := None);
    if p.nextchar != "" {
      TakeIs(cfg, argv, s.(p := p));
    } else {
      var k := if cfg.ordering.Permute? then Skip(argv, p.optind) else p.optind;
      TakeIs(cfg, argv, Scan(p.(optind := k, nextchar := Strip(argv[k])), s.kinds + Same(false, k - p.optind), false));
    }
  }

  // ---- Arguments on which it comes early ----

  function Start(): Scan {
    Scan(Parse(0, "", None, '?' as int, 0, false), [], false)
  }

  /** The first call, when the first argument is an option. */
  lemma FirstCall(cfg: Config, argv: seq<string>)
    requires cfg.Valid() && |argv| > 0 && !NonOption(argv[0]) && argv[0] != "--"
    ensures var (ret, r) := Call(cfg, argv, Start());
      !r.done && ret == Decode(cfg, argv, Parse(0, Strip(argv[0]), None, '?' as int, 0, false)).0
  {
  }

  /** Looking up text that selects option k, with an argument where one is needed, reports its value. */
  lemma Reported(cfg: Config, opts: seq<LongOpt>, argv: seq<string>, p: Parse, k: nat)
    requires k < |opts| && !opts[k].flagged && opts[k].val == -1 && p.optind + 1 < |argv|
    requires Selected(opts, p.nextchar[..NameEnd(p.nextchar)]) == Found(k)
    requires NameEnd(p.nextchar) < |p.nextchar| ==> !opts[k].hasArg.NoArgument?
    ensures CheckLong(cfg, opts, argv, p).0 && CheckLong(cfg, opts, argv, p).1 == -1
  {
  }

  lemma BaseIsAll(name: string)
    ensures NameEnd(Base(name)) == |Base(name)|
  {
    NameEndIs(name);
    NameEndIs(Base(name));
  }

  /** The arguments that make option k report -1. */
  function Typed(cfg: Config, o: LongOpt): seq<string> {
    if Base(o.name) != "" then ["--" + Base(o.name), "x"]
    else if !o.hasArg.NoArgument? then ["--=x", ""]
    else ["-W", "", "x"]
  }

  lemma TypedLong(cfg: Config, k: nat, text: string, more: string)
    requires cfg.Valid() && cfg.longOptions.Some? && text != ""
    requires var o := cfg.longOptions; k < |o.value| && !o.value[k].flagged && o.value[k].val == -1
    requires Selected(cfg.longOptions.value, text[..NameEnd(text)]) == Found(k)
    requires NameEnd(text) < |text| ==> !cfg.longOptions.value[k].hasArg.NoArgument?
    ensures !OnlyAtEnd(cfg, ["--" + text, more], Start())
  {
    var argv := ["--" + text, more];
    assert Strip(argv[0]) == text;
    FirstCall(cfg, argv);
    Reported(cfg, cfg.longOptions.value, argv, Parse(0, text, None, '?' as int, 0, false), k);
  }

  lemma TypedByW(cfg: Config, k: nat)
    requires cfg.Valid() && cfg.longOptions.Some? && TakesW(cfg)
    requires var o := cfg.longOptions; k < |o.value| && !o.value[k].flagged && o.value[k].val == -1
    requires Selected(cfg.longOptions.value, "") == Found(k)
    ensures !OnlyAtEnd(cfg, ["-W", "", "x"], Start())
  {
    var argv := ["-W", "", "x"];
    assert Strip(argv[0]) == "W";
    FirstCall(cfg, argv);
    var q := Taken(Parse(0, "W", None, '?' as int, 0, false));
    assert q.nextchar == "" && q.optind == 1 && argv[1] == "";
    Reported(cfg, cfg.longOptions.value, argv, q.(optarg := Some("")), k);
  }

  lemma TypedReports(cfg: Config, k: nat)
    requires cfg.Valid() && cfg.longOptions.Some? && MinusOneAt(cfg, cfg.longOptions.value, k)
    ensures !OnlyAtEnd(cfg, Typed(cfg, cfg.longOptions.value[k]), Start())
  {
    var o := cfg.longOptions.value[k];
    BaseIsAll(o.name);
    if Base(o.name) != "" {
      assert Base(o.name)[..|Base(o.name)|] == Base(o.name);
      TypedLong(cfg, k, Base(o.name), "x");
    } else if !o.hasArg.NoArgument? {
      assert NameEnd("=x") == 0;
      TypedLong(cfg, k, "=x", "");
      assert "--" + "=x" == "--=x";
    } else {
      TypedByW(cfg, k);
    }
  }

  /**
   * For all arguments and from every point of the scan, getopt() reports -1 exactly when the scan ends,
   * if and only if no unflagged long option with value -1 can be selected.
   */
  lemma MinusOneEnds(cfg: Config)
    requires cfg.Valid()
    ensures (forall argv: seq<string>, s: Scan | ScanOk(cfg, argv, s) && !s.done :: OnlyAtEnd(cfg, argv, s))
            <==> !MinusOne(cfg)
  {
    if MinusOne(cfg) {
      var k: nat :| MinusOneAt(cfg, cfg.longOptions.value, k);
      TypedReports(cfg, k);
      assert ScanOk(cfg, Typed(cfg, cfg.longOptions.value[k]), Start());
    } else {
      forall argv: seq<string>, s: Scan | ScanOk(cfg, argv, s) && !s.done ensures OnlyAtEnd(cfg, argv, s) {
        if !OnlyAtEnd(cfg, argv, s) { EarlyMinusOne(cfg, argv, s); }
      }
    }
  }

  /** Without such an option, a loop up to the first -1 sees everything and leaves the scan at its end. */
  lemma {:induction false} NothingMissed(cfg: Config, argv: seq<string>, s: Scan)
    requires ScanOk(cfg, argv, s) && !s.done && !MinusOne(cfg)
    ensures UntilMinusOne(cfg, argv, s) == (Reports(cfg, argv, s), AllCalls(cfg, argv, s))
    decreases |argv| - s.p.optind, Left(argv, s.p)
  {
    CallMoves(cfg, argv, s);
    if !OnlyAtEnd(cfg, argv, s) { EarlyMinusOne(cfg, argv, s); }
    var r := Call(cfg, argv, s).1;
    if !r.done { NothingMissed(cfg, argv, r); }
  }

  /** The one option "x" has the value -1: of "--x a" the loop sees nothing, and "a" is never reached. */
  lemma EarlyExample()
    ensures var cfg := Config("a", Some([LongOpt("x", NoArgument, false, -1)]), false, false, Permute);
      && cfg.Valid() && Call(cfg, ["--x", "a"], Start()).0 == -1 && !Call(cfg, ["--x", "a"], Start()).1.done
      && UntilMinusOne(cfg, ["--x", "a"], Start()).1.p.optind == 1
  {
    var opts := [LongOpt("x", NoArgument, false, -1)];
    var cfg := Config("a", Some(opts), false, false, Permute);
    var argv := ["--x", "a"];
    assert Strip(argv[0]) == "x" && NameEnd("x") == 1 && "x"[..1] == "x";
    FirstCall(cfg, argv);
    assert Selected(opts, "x") == Found(0);
    Reported(cfg, opts, argv, Parse(0, "x", None, '?' as int, 0, false), 0);
  }

  /** A second option of the same name does no harm: its name selects the first. */
  lemma HiddenExample()
    ensures !MinusOne(Config("a", Some([LongOpt("x", NoArgument, false, 1), LongOpt("x", NoArgument, false, -1)]),
                             false, false, Permute))
  {
    var opts := [LongOpt("x", NoArgument, false, 1), LongOpt("x", NoArgument, false, -1)];
    assert NameEnd("x") == 1 && Base("x") == "x";
    assert Selected(opts, Base(opts[1].name)) == Found(0);
  }
}
