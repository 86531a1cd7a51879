/**
 * What one call of getopt() reports, from the arguments and the descriptions of the options as they are
 * given: every kind of element, with every kind of argument, present or missing.
 */
module GetoptReports {
  import opened Getopts
  import opened Seqs

  // ---- Where a call looks ----

  /** The argument begins with a dash and is more than that. */
  predicate OptionLike(arg: string) {
    |arg| >= 2 && arg[0] == '-'
  }

  predicate Dashed(arg: string) {
    |arg| >= 2 && arg[0] == '-' && arg[1] == '-'
  }

  /** Element k is the next one that is not passed over, which only happens in permuting order. */
  ghost predicate Next(cfg: Config, argv: seq<string>, i: nat, k: nat) {
    && i <= k <= |argv| && (forall j | i <= j < k :: !OptionLike(argv[j])) && (i < k ==> cfg.ordering.Permute?)
    && (k < |argv| && cfg.ordering.Permute? ==> OptionLike(argv[k]))
  }

  ghost predicate Ready(cfg: Config, argv: seq<string>, s: Scan) {
    ScanOk(cfg, argv, s) && !s.done && !s.p.endparse
  }

  /** The call decodes text, which is what is left of element k. */
  ghost predicate LooksAt(cfg: Config, argv: seq<string>, s: Scan, k: nat, text: string) {
    && Ready(cfg, argv, s) && k < |argv| && text != ""
    && if s.p.nextchar != "" then k == s.p.optind && text == s.p.nextchar
       else Next(cfg, argv, s.p.optind, k) && OptionLike(argv[k]) && argv[k] != "--"
            && text == if Dashed(argv[k]) then argv[k][2..] else argv[k][1..]
  }

  /** The element is looked up among the long options first. */
  ghost predicate LongFirst(cfg: Config, arg: string) {
    && cfg.longOptions.Some? && |arg| >= 2
    && (Dashed(arg) || (cfg.longOnly && (|arg| > 2 || arg[1] !in cfg.optstring)))
  }

  /** Everything up to position k is passed, and what from k on to the new position has been taken is an option's. */
  ghost predicate PassedTo(s: Scan, k: nat, r: Scan) {
    && !r.done && |s.kinds| <= k <= |r.kinds| == r.p.optind
    && (forall i | 0 <= i < |r.kinds| :: r.kinds[i] == if i < |s.kinds| then s.kinds[i] else i >= k)
  }

  /** The call reports c, leaves the parser's fields as q, and goes on from there. */
  ghost predicate Does(cfg: Config, argv: seq<string>, s: Scan, k: nat, c: int, q: Parse) {
    forall u: nat :: DoesAt(u, cfg, argv, s, k, c, q)
  }

  ghost predicate DoesAt(unused: nat, cfg: Config, argv: seq<string>, s: Scan, k: nat, c: int, q: Parse) {
    && ScanOk(cfg, argv, s) && !s.done
    && var (ret, r) := Call(cfg, argv, s); ret == c && r.p == q && PassedTo(s, k, r)
  }

  lemma {:induction false} SkipsTo(argv: seq<string>, i: nat, k: nat)
    requires i <= k <= |argv| && (forall j | i <= j < k :: !OptionLike(argv[j])) && (k < |argv| ==> OptionLike(argv[k]))
    ensures Skip(argv, i) == k
    decreases k - i
  {
    if i < k { SkipsTo(argv, i + 1, k); }
  }

  /** The fields with which the decoding of text begins. */
  ghost function Begun(s: Scan, k: nat, text: string): Parse {
    s.p.(optarg := None, optind := k, nextchar := text)
  }

  lemma Looks(cfg: Config, argv: seq<string>, s: Scan, k: nat, text: string) returns (t: Scan)
    requires LooksAt(cfg, argv, s, k, text)
    ensures ScanOk(cfg, argv, t) && t == Scan(Begun(s, k, text), s.kinds + Same(false, k - s.p.optind), false)
    ensures Continues(cfg, argv, s, t)
  {
    t := Scan(Begun(s, k, text), s.kinds + Same(false, k - s.p.optind), false);
    if s.p.nextchar == "" {
      if cfg.ordering.Permute? { SkipsTo(argv, s.p.optind, k); }
      assert Strip(argv[k]) == text;
      CallAtOption(cfg, argv, s, k, t);
    } else {
      assert s.kinds + Same(false, 0) == s.kinds;
      CallWithinElement(cfg, argv, s, t);
    }
  }

  lemma Decoded(cfg: Config, argv: seq<string>, s: Scan, k: nat, text: string, c: int, q: Parse)
    requires LooksAt(cfg, argv, s, k, text) && Decodes(cfg, argv, Begun(s, k, text), c, q)
    ensures Does(cfg, argv, s, k, c, q)
  {
    var t := Looks(cfg, argv, s, k, text);
    assert ContinuesAt(0, cfg, argv, s, t) && DecodesAt(0, cfg, argv, t.p, c, q);
    DecodeMoves(cfg, argv, t.p);
    var r := Scan(q, t.kinds + Same(true, q.optind - k), false);
    assert PassedTo(s, k, r);
    forall u: nat ensures DoesAt(u, cfg, argv, s, k, c, q) { }
  }

  // ---- Letters ----

  /** The description of option c begins at position at of the option string. */
  ghost predicate DescribedAt(optstring: string, c: char, at: nat) {
    at < |optstring| && optstring[at] == c && forall j | 0 <= j < at :: optstring[j] != c
  }

  ghost predicate HasAt(optstring: string, i: nat, c: char) {
    i < |optstring| && optstring[i] == c
  }

  lemma Contains(optstring: string, c: char)
    ensures IndexOf(optstring, c) == -1 <==> c !in optstring
  {
  }

  lemma TriesLongIs(cfg: Config, arg: string)
    requires |arg| >= 2
    ensures cfg.TriesLong(arg) <==> LongFirst(cfg, arg)
  {
    Contains(cfg.optstring, arg[1]);
    assert StartsWith(arg, "--") <==> Dashed(arg);
  }

  /** The text up to its first '='. */
  ghost predicate NameIn(text: string, name: string) {
    StartsWith(text, name) && '=' !in name && (|name| < |text| ==> text[|name|] == '=')
  }

  lemma NameInIs(text: string, name: string)
    requires NameIn(text, name)
    ensures text[..NameEnd(text)] == name && NameEnd(text) == |name|
  {
    var i := IndexOf(text, '=');
    assert forall j | 0 <= j < |name| :: text[j] == name[j];
  }

  /** The text is not looked up as a long option, or is none and may be letters all the same. */
  ghost predicate Letters(cfg: Config, arg: string, text: string)
    requires text != ""
  {
    LongFirst(cfg, arg) ==>
      && cfg.longOnly && !Dashed(arg) && text[0] in cfg.optstring
      && exists name :: NameIn(text, name) && Selects(cfg.longOptions.value, name, Nothing)
  }

  /** The fields once the letter in front of rest has been taken from element k. */
  ghost function LetterTaken(cfg: Config, argv: seq<string>, s: Scan, k: nat, rest: string): Parse
    requires k < |argv|
  {
    s.p.(optarg := None, optind := if rest == "" then k + 1 else k, nextchar := rest,
         longind := if LongFirst(cfg, argv[k]) then -1 else s.p.longind)
  }

  lemma SelectedIs(cfg: Config, name: string, m: Match)
    requires cfg.longOptions.Some? && Selects(cfg.longOptions.value, name, m)
    ensures Selected(cfg.longOptions.value, name) == m
  {
    SelectedSelects(cfg.longOptions.value, name);
    SelectsOne(cfg.longOptions.value, name, m, Selected(cfg.longOptions.value, name));
  }

  /** A letter comes to what the code for short options makes of it. */
  lemma LetterDoes(cfg: Config, argv: seq<string>, s: Scan, k: nat, c: char, rest: string, code: int, q: Parse)
    requires LooksAt(cfg, argv, s, k, [c] + rest) && Letters(cfg, argv[k], [c] + rest)
    requires (code, q) == ShortOption(cfg, argv, LetterTaken(cfg, argv, s, k, rest), c)
    ensures Does(cfg, argv, s, k, code, q)
  {
    var p, text := Begun(s, k, [c] + rest), [c] + rest;
    TriesLongIs(cfg, argv[k]);
    assert text[1..] == rest && text[0] == c;
    if LongFirst(cfg, argv[k]) {
      var name :| NameIn(text, name) && Selects(cfg.longOptions.value, name, Nothing);
      NameInIs(text, name);
      SelectedIs(cfg, name, Nothing);
      Contains(cfg.optstring, c);
    }
    forall u: nat ensures DecodesAt(u, cfg, argv, p, code, q) { }
    Decoded(cfg, argv, s, k, text, code, q);
  }

  /** The code for a missing argument. */
  ghost predicate MissingCode(cfg: Config, c: int) {
    |cfg.optstring| > 0 && c == if cfg.optstring[0] == ':' then ':' as int else '?' as int
  }

  /** A letter that is not described, or ':': '?', and the letter in optopt. */
  lemma UnknownLetter(cfg: Config, argv: seq<string>, s: Scan, k: nat, c: char, rest: string)
    requires LooksAt(cfg, argv, s, k, [c] + rest) && Letters(cfg, argv[k], [c] + rest)
    requires c == ':' || c !in cfg.optstring
    ensures Does(cfg, argv, s, k, '?' as int, LetterTaken(cfg, argv, s, k, rest).(optopt := c as int))
  {
    Contains(cfg.optstring, c);
    LetterDoes(cfg, argv, s, k, c, rest, '?' as int, LetterTaken(cfg, argv, s, k, rest).(optopt := c as int));
  }

  /** A letter without an argument is reported as it is, and the letters behind it come next. */
  lemma PlainLetter(cfg: Config, argv: seq<string>, s: Scan, k: nat, c: char, rest: string, at: nat)
    requires LooksAt(cfg, argv, s, k, [c] + rest) && Letters(cfg, argv[k], [c] + rest)
    requires DescribedAt(cfg.optstring, c, at) && c != ':' && !HasAt(cfg.optstring, at + 1, ':')
    requires !(c == 'W' && HasAt(cfg.optstring, at + 1, ';'))
    ensures Does(cfg, argv, s, k, c as int, LetterTaken(cfg, argv, s, k, rest))
  {
    LetterDoes(cfg, argv, s, k, c, rest, c as int, LetterTaken(cfg, argv, s, k, rest));
  }

  /** An optional argument is what is left of the element, or there is none; the next argument never is it. */
  lemma OptionalAfterLetter(cfg: Config, argv: seq<string>, s: Scan, k: nat, c: char, rest: string, at: nat)
    requires LooksAt(cfg, argv, s, k, [c] + rest) && Letters(cfg, argv[k], [c] + rest)
    requires DescribedAt(cfg.optstring, c, at) && c != ':'
    requires HasAt(cfg.optstring, at + 1, ':') && HasAt(cfg.optstring, at + 2, ':')
    ensures Does(cfg, argv, s, k, c as int,
                 LetterTaken(cfg, argv, s, k, rest).(
                   optarg := if rest == "" then None else Some(rest), optind := k + 1, nextchar := ""))
  {
    LetterDoes(cfg, argv, s, k, c, rest, c as int,
               LetterTaken(cfg, argv, s, k, rest).(
                 optarg := if rest == "" then None else Some(rest), optind := k + 1, nextchar := ""));
  }

  /** Option c requires an argument. */
  ghost predicate NeedsArgument(cfg: Config, c: char) {
    c != ':' && exists at: nat :: DescribedAt(cfg.optstring, c, at) && HasAt(cfg.optstring, at + 1, ':')
                             && !HasAt(cfg.optstring, at + 2, ':')
  }

  /** A required argument is what is left of the element, or else the next argument. */
  lemma ArgumentAfterLetter(cfg: Config, argv: seq<string>, s: Scan, k: nat, c: char, rest: string)
    requires LooksAt(cfg, argv, s, k, [c] + rest) && Letters(cfg, argv[k], [c] + rest) && NeedsArgument(cfg, c)
    requires rest != "" || (k + 1 < |argv| && !(cfg.posix && argv[k + 1] == "--"))
    ensures Does(cfg, argv, s, k, c as int,
                 LetterTaken(cfg, argv, s, k, rest).(
                   optarg := Some(if rest != "" then rest else argv[k + 1]),
                   optind := if rest != "" then k + 1 else k + 2, nextchar := ""))
  {
    var at: nat :| DescribedAt(cfg.optstring, c, at) && HasAt(cfg.optstring, at + 1, ':')
                   && !HasAt(cfg.optstring, at + 2, ':');
    assert IndexOf(cfg.optstring, c) == at;
    LetterDoes(cfg, argv, s, k, c, rest, c as int,
               LetterTaken(cfg, argv, s, k, rest).(
                 optarg := Some(if rest != "" then rest else argv[k + 1]),
                 optind := if rest != "" then k + 1 else k + 2, nextchar := ""));
  }

  /** At the end of the arguments it is missing: the letter is in optopt. */
  lemma MissingAfterLetter(cfg: Config, argv: seq<string>, s: Scan, k: nat, c: char, code: int)
    requires LooksAt(cfg, argv, s, k, [c]) && Letters(cfg, argv[k], [c]) && NeedsArgument(cfg, c)
    requires k + 1 == |argv| && MissingCode(cfg, code)
    ensures Does(cfg, argv, s, k, code, LetterTaken(cfg, argv, s, k, "").(optopt := c as int))
  {
    var at: nat :| DescribedAt(cfg.optstring, c, at) && HasAt(cfg.optstring, at + 1, ':')
                   && !HasAt(cfg.optstring, at + 2, ':');
    assert IndexOf(cfg.optstring, c) == at;
    assert [c] + "" == [c];
    LetterDoes(cfg, argv, s, k, c, "", code, LetterTaken(cfg, argv, s, k, "").(optopt := c as int));
  }

  /**
   * In POSIX mode a "--" in its place is passed over, the argument behind it is taken, and the options end;
   * without one it is missing.
   */
  lemma DashesAfterLetter(cfg: Config, argv: seq<string>, s: Scan, k: nat, c: char, code: int)
    requires LooksAt(cfg, argv, s, k, [c]) && Letters(cfg, argv[k], [c]) && NeedsArgument(cfg, c)
    requires cfg.posix && k + 1 < |argv| && argv[k + 1] == "--" && MissingCode(cfg, code)
    ensures if k + 2 == |argv| then
              Does(cfg, argv, s, k, code,
                   LetterTaken(cfg, argv, s, k, "").(optarg := Some("--"), optind := k + 2, optopt := c as int))
            else
              Does(cfg, argv, s, k, c as int,
                   LetterTaken(cfg, argv, s, k, "").(optarg := Some(argv[k + 2]), optind := k + 3, endparse := true))
  {
    var at: nat :| DescribedAt(cfg.optstring, c, at) && HasAt(cfg.optstring, at + 1, ':')
                   && !HasAt(cfg.optstring, at + 2, ':');
    assert IndexOf(cfg.optstring, c) == at;
    assert [c] + "" == [c];
    if k + 2 == |argv| {
      LetterDoes(cfg, argv, s, k, c, "", code,
                 LetterTaken(cfg, argv, s, k, "").(optarg := Some("--"), optind := k + 2, optopt := c as int));
    } else {
      LetterDoes(cfg, argv, s, k, c, "", c as int,
                 LetterTaken(cfg, argv, s, k, "").(optarg := Some(argv[k + 2]), optind := k + 3, endparse := true));
    }
  }

  /** After that the next call ends the scan. */
  lemma EndsAfterDashes(cfg: Config, argv: seq<string>, s: Scan)
    requires ScanOk(cfg, argv, s) && !s.done && s.p.endparse
    ensures var (ret, r) := Call(cfg, argv, s); ret == -1 && r.done && r.kinds == s.kinds && r.p == s.p.(optarg := None)
  {
  }

  // ---- Long options, after dashes and after "-W" ----

  /** "W;" is described. */
  ghost predicate DescribesW(cfg: Config) {
    exists at: nat :: DescribedAt(cfg.optstring, 'W', at) && HasAt(cfg.optstring, at + 1, ';')
  }

  /**
   * The call looks up text, which ends before element next, as a long option; given is the argument until
   * it has its own.
   */
  ghost predicate Names(cfg: Config, argv: seq<string>, s: Scan, k: nat, text: string, next: nat,
                        given: Option<string>)
  {
    && cfg.longOptions.Some?
    && ((LooksAt(cfg, argv, s, k, text) && LongFirst(cfg, argv[k]) && next == k + 1 && given == None)
        || (DescribesW(cfg) && given == Some(text) && NamedAfterW(cfg, argv, s, k, text, next)))
  }

  ghost predicate NamedAfterW(cfg: Config, argv: seq<string>, s: Scan, k: nat, text: string, next: nat) {
    if next == k + 1 then
      text != "" && LooksAt(cfg, argv, s, k, ['W'] + text) && Letters(cfg, argv[k], ['W'] + text)
    else
      next == k + 2 <= |argv| && text == argv[k + 1] && LooksAt(cfg, argv, s, k, "W") && Letters(cfg, argv[k], "W")
  }

  lemma WIsDescribed(cfg: Config)
    requires DescribesW(cfg)
    ensures IndexOf(cfg.optstring, 'W') >= 0 && Described(cfg, IndexOf(cfg.optstring, 'W'), 1, ';')
  {
    var at: nat :| DescribedAt(cfg.optstring, 'W', at) && HasAt(cfg.optstring, at + 1, ';');
    assert IndexOf(cfg.optstring, 'W') == at;
  }

  /** After "-W" the call comes to what the lookup of the name does. */
  lemma AfterW(cfg: Config, argv: seq<string>, s: Scan, k: nat, text: string, next: nat, code: int, q: Parse)
    requires cfg.longOptions.Some? && DescribesW(cfg) && NamedAfterW(cfg, argv, s, k, text, next)
    requires var rest := if next == k + 1 then text else "";
      var (handled, ret, r) := CheckLong(cfg, cfg.longOptions.value, argv,
                                         LetterTaken(cfg, argv, s, k, rest).(nextchar := text, optarg := Some(text)));
      (code, q) == if handled then (ret, r) else ('W' as int, r.(nextchar := "", optind := r.optind + 1))
    ensures Does(cfg, argv, s, k, code, q)
  {
    WIsDescribed(cfg);
    var rest := if next == k + 1 then text else "";
    assert ['W'] + "" == "W";
    LetterDoes(cfg, argv, s, k, 'W', rest, code, q);
  }

  lemma DashesName(cfg: Config, argv: seq<string>, s: Scan, k: nat, text: string, code: int, q: Parse)
    requires LooksAt(cfg, argv, s, k, text) && LongFirst(cfg, argv[k])
    requires (true, code, q) == CheckLong(cfg, cfg.longOptions.value, argv, Begun(s, k, text))
    ensures Does(cfg, argv, s, k, code, q)
  {
    TriesLongIs(cfg, argv[k]);
    forall u: nat ensures DecodesAt(u, cfg, argv, Begun(s, k, text), code, q) { }
    Decoded(cfg, argv, s, k, text, code, q);
  }

  /** What is looked up does not depend on what was looked up before. */
  lemma CheckLongAgain(cfg: Config, argv: seq<string>, p: Parse, i: int)
    requires cfg.longOptions.Some? && p.optind < |argv|
    ensures CheckLong(cfg, cfg.longOptions.value, argv, p.(longind := i)) ==
            CheckLong(cfg, cfg.longOptions.value, argv, p)
  {
  }

  /** In both forms the call comes to what the lookup of the text does, if that finds something to report. */
  lemma LookedUp(cfg: Config, argv: seq<string>, s: Scan, k: nat, text: string, next: nat, given: Option<string>,
                 p: Parse, code: int, q: Parse)
    requires Names(cfg, argv, s, k, text, next, given)
    requires p == s.p.(optarg := given, optind := next - 1, nextchar := text)
    requires (true, code, q) == CheckLong(cfg, cfg.longOptions.value, argv, p)
    ensures Does(cfg, argv, s, k, code, q)
  {
    if LooksAt(cfg, argv, s, k, text) && LongFirst(cfg, argv[k]) && next == k + 1 && given == None {
      CheckLongAgain(cfg, argv, p, s.p.longind);
      DashesName(cfg, argv, s, k, text, code, q);
    } else {
      var taken := LetterTaken(cfg, argv, s, k, if next == k + 1 then text else "");
      CheckLongAgain(cfg, argv, p, taken.longind);
      assert taken.(nextchar := text, optarg := Some(text)) == p.(longind := taken.longind);
      AfterW(cfg, argv, s, k, text, next, code, q);
    }
  }

  /** A name that is found comes to what the code for that long option makes of it. */
  lemma NamedDoes(cfg: Config, argv: seq<string>, s: Scan, k: nat, text: string, next: nat, given: Option<string>,
                  name: string, i: nat, code: int, q: Parse)
    requires Names(cfg, argv, s, k, text, next, given) && NameIn(text, name)
    requires Selects(cfg.longOptions.value, name, Found(i))
    requires (code, q) == UseLong(cfg, cfg.longOptions.value[i], argv,
                                  s.p.(optarg := given, optind := next, nextchar := text, longind := i), |name|)
    ensures Does(cfg, argv, s, k, code, q)
  {
    NameInIs(text, name);
    SelectedIs(cfg, name, Found(i));
    LookedUp(cfg, argv, s, k, text, next, given, s.p.(optarg := given, optind := next - 1, nextchar := text), code, q);
  }

  /** What is reported for a long option. */
  ghost predicate CodeOf(o: LongOpt, code: int) {
    code == if o.flagged then 0 else o.val
  }

  /** "name=value", for an option that takes an argument. */
  lemma LongWithValue(cfg: Config, argv: seq<string>, s: Scan, k: nat, text: string, next: nat, given: Option<string>,
                      name: string, value: string, i: nat, code: int)
    requires Names(cfg, argv, s, k, text, next, given) && '=' !in name && text == name + "=" + value
    requires Selects(cfg.longOptions.value, name, Found(i)) && CodeOf(cfg.longOptions.value[i], code)
    requires !cfg.longOptions.value[i].hasArg.NoArgument?
    ensures Does(cfg, argv, s, k, code, s.p.(optarg := Some(value), optind := next, nextchar := "", longind := i))
  {
    assert text[|name| + 1..] == value;
    NamedDoes(cfg, argv, s, k, text, next, given, name, i, code,
              s.p.(optarg := Some(value), optind := next, nextchar := "", longind := i));
  }

  /** "name=value", for an option that takes none: '?', and the option's value in optopt. */
  lemma LongTakesNone(cfg: Config, argv: seq<string>, s: Scan, k: nat, text: string, next: nat, given: Option<string>,
                      name: string, value: string, i: nat)
    requires Names(cfg, argv, s, k, text, next, given) && '=' !in name && text == name + "=" + value
    requires Selects(cfg.longOptions.value, name, Found(i)) && cfg.longOptions.value[i].hasArg.NoArgument?
    ensures Does(cfg, argv, s, k, '?' as int,
                 s.p.(optarg := given, optind := next, nextchar := "", longind := i,
                      optopt := cfg.longOptions.value[i].val))
  {
    NamedDoes(cfg, argv, s, k, text, next, given, name, i, '?' as int,
              s.p.(optarg := given, optind := next, nextchar := "", longind := i,
                   optopt := cfg.longOptions.value[i].val));
  }

  /** The name alone, for an option that requires an argument: the next argument is it. */
  lemma LongTakesNext(cfg: Config, argv: seq<string>, s: Scan, k: nat, text: string, next: nat, given: Option<string>,
                      i: nat, code: int)
    requires Names(cfg, argv, s, k, text, next, given) && '=' !in text && next < |argv|
    requires Selects(cfg.longOptions.value, text, Found(i)) && CodeOf(cfg.longOptions.value[i], code)
    requires cfg.longOptions.value[i].hasArg.RequiredArgument?
    ensures Does(cfg, argv, s, k, code,
                 s.p.(optarg := Some(argv[next]), optind := next + 1, nextchar := "", longind := i))
  {
    NamedDoes(cfg, argv, s, k, text, next, given, text, i, code,
              s.p.(optarg := Some(argv[next]), optind := next + 1, nextchar := "", longind := i));
  }

  /** At the end of the arguments it is missing: the option's value is in optopt. */
  lemma LongMissing(cfg: Config, argv: seq<string>, s: Scan, k: nat, text: string, next: nat, given: Option<string>,
                    i: nat, code: int)
    requires Names(cfg, argv, s, k, text, next, given) && '=' !in text && next == |argv| && MissingCode(cfg, code)
    requires Selects(cfg.longOptions.value, text, Found(i)) && cfg.longOptions.value[i].hasArg.RequiredArgument?
    ensures Does(cfg, argv, s, k, code,
                 s.p.(optarg := given, optind := next, nextchar := "", longind := i,
                      optopt := cfg.longOptions.value[i].val))
  {
    NamedDoes(cfg, argv, s, k, text, next, given, text, i, code,
              s.p.(optarg := given, optind := next, nextchar := "", longind := i,
                   optopt := cfg.longOptions.value[i].val));
  }

  /** The name alone, for an option that takes none or need not have one: the next argument never is it. */
  lemma LongAlone(cfg: Config, argv: seq<string>, s: Scan, k: nat, text: string, next: nat, given: Option<string>,
                  i: nat, code: int)
    requires Names(cfg, argv, s, k, text, next, given) && '=' !in text
    requires Selects(cfg.longOptions.value, text, Found(i)) && CodeOf(cfg.longOptions.value[i], code)
    requires !cfg.longOptions.value[i].hasArg.RequiredArgument?
    ensures Does(cfg, argv, s, k, code, s.p.(optarg := given, optind := next, nextchar := "", longind := i))
  {
    NamedDoes(cfg, argv, s, k, text, next, given, text, i, code,
              s.p.(optarg := given, optind := next, nextchar := "", longind := i));
  }

  /** An ambiguous name: '?', and 0 in optopt. */
  lemma LongAmbiguous(cfg: Config, argv: seq<string>, s: Scan, k: nat, text: string, next: nat, given: Option<string>,
                      name: string, i: nat)
    requires Names(cfg, argv, s, k, text, next, given) && NameIn(text, name)
    requires Selects(cfg.longOptions.value, name, Ambiguous(i))
    ensures Does(cfg, argv, s, k, '?' as int,
                 s.p.(optarg := given, optind := next, nextchar := "", longind := i, optopt := 0))
  {
    var q := s.p.(optarg := given, optind := next, nextchar := "", longind := i, optopt := 0);
    NameInIs(text, name);
    SelectedIs(cfg, name, Ambiguous(i));
    LookedUp(cfg, argv, s, k, text, next, given, s.p.(optarg := given, optind := next - 1, nextchar := text),
             '?' as int, q);
  }

  /** A name that is no option's, nor letters: '?', and 0 in optopt. */
  lemma LongUnknown(cfg: Config, argv: seq<string>, s: Scan, k: nat, text: string, name: string)
    requires LooksAt(cfg, argv, s, k, text) && LongFirst(cfg, argv[k]) && NameIn(text, name)
    requires Selects(cfg.longOptions.value, name, Nothing)
    requires !cfg.longOnly || Dashed(argv[k]) || text[0] !in cfg.optstring
    ensures Does(cfg, argv, s, k, '?' as int,
                 s.p.(optarg := None, optind := k + 1, nextchar := "", longind := -1, optopt := 0))
  {
    var q := s.p.(optarg := None, optind := k + 1, nextchar := "", longind := -1, optopt := 0);
    NameInIs(text, name);
    SelectedIs(cfg, name, Nothing);
    TriesLongIs(cfg, argv[k]);
    Contains(cfg.optstring, text[0]);
    var p, code := Begun(s, k, text), '?' as int;
    forall u: nat ensures DecodesAt(u, cfg, argv, p, code, q) { }
    Decoded(cfg, argv, s, k, text, code, q);
  }

  /** After "-W" it is left to the program: 'W' with the text as its argument. */
  lemma UnknownAfterW(cfg: Config, argv: seq<string>, s: Scan, k: nat, text: string, next: nat, name: string)
    requires cfg.longOptions.Some? && DescribesW(cfg) && NamedAfterW(cfg, argv, s, k, text, next)
    requires NameIn(text, name) && Selects(cfg.longOptions.value, name, Nothing)
    ensures Does(cfg, argv, s, k, 'W' as int,
                 s.p.(optarg := Some(text), optind := next, nextchar := "", longind := -1))
  {
    NameInIs(text, name);
    SelectedIs(cfg, name, Nothing);
    AfterW(cfg, argv, s, k, text, next, 'W' as int,
           s.p.(optarg := Some(text), optind := next, nextchar := "", longind := -1));
  }

  /** "-W" at the end of the arguments: the name is missing. */
  lemma MissingAfterW(cfg: Config, argv: seq<string>, s: Scan, k: nat, code: int)
    requires LooksAt(cfg, argv, s, k, "W") && Letters(cfg, argv[k], "W") && DescribesW(cfg)
    requires k + 1 == |argv| && MissingCode(cfg, code)
    ensures Does(cfg, argv, s, k, code, LetterTaken(cfg, argv, s, k, "").(optopt := 'W' as int))
  {
    WIsDescribed(cfg);
    assert ['W'] + "" == "W";
    LetterDoes(cfg, argv, s, k, 'W', "", code, LetterTaken(cfg, argv, s, k, "").(optopt := 'W' as int));
  }

  // ---- Where there is no option ----

  /** A call between elements, at the next one that is not passed over. */
  ghost predicate Stops(cfg: Config, argv: seq<string>, s: Scan, k: nat) {
    Ready(cfg, argv, s) && s.p.nextchar == "" && Next(cfg, argv, s.p.optind, k)
  }

  lemma StopsAt(cfg: Config, argv: seq<string>, s: Scan, k: nat)
    requires Stops(cfg, argv, s, k)
    ensures NextAt(cfg, argv, s.p.optind) == k
  {
    if cfg.ordering.Permute? { SkipsTo(argv, s.p.optind, k); }
  }

  /** Of n arguments those passed keep their kinds; of the others only the one at k, if there is one, is no operand. */
  ghost predicate OperandsFrom(was: seq<bool>, k: nat, kinds: seq<bool>, n: nat) {
    |kinds| == n && forall i | 0 <= i < n :: kinds[i] == if i < |was| then was[i] else i == k
  }

  /** At "--" and at the end of the arguments -1 is reported and the scan ends; all that is left are operands. */
  lemma EndReported(cfg: Config, argv: seq<string>, s: Scan, k: nat)
    requires Stops(cfg, argv, s, k) && (k < |argv| ==> argv[k] == "--")
    ensures var (ret, r) := Call(cfg, argv, s);
      ret == -1 && r.done && r.p.optarg == None && OperandsFrom(s.kinds, k, r.kinds, |argv|)
  {
    StopsAt(cfg, argv, s, k);
  }

  /**
   * An argument that is no option and not passed over: it ends the scan, or is reported as the argument
   * of an option of value 1.
   */
  lemma NonOptionReported(cfg: Config, argv: seq<string>, s: Scan, k: nat)
    requires Stops(cfg, argv, s, k) && k < |argv| && !OptionLike(argv[k])
    ensures if cfg.ordering.RequireOrder? then
              var (ret, r) := Call(cfg, argv, s);
              ret == -1 && r.done && r.p == s.p.(optarg := None) && r.kinds == s.kinds
            else Does(cfg, argv, s, k, 1, s.p.(optarg := Some(argv[k]), optind := k + 1))
  {
    StopsAt(cfg, argv, s, k);
    assert s.kinds + Same(false, 0) == s.kinds;
    var q := s.p.(optarg := Some(argv[k]), optind := k + 1);
    if !cfg.ordering.RequireOrder? {
      forall u: nat ensures DoesAt(u, cfg, argv, s, k, 1, q) { }
    }
  }

  // ---- Nothing else can happen ----

  /** A letter that is described in one of the ways above, or not at all. */
  lemma EveryLetter(cfg: Config, c: char)
    ensures c == ':' || c !in cfg.optstring || NeedsArgument(cfg, c) || exists at: nat ::
              DescribedAt(cfg.optstring, c, at)
              && (HasAt(cfg.optstring, at + 1, ':') ==> HasAt(cfg.optstring, at + 2, ':'))
  {
    Contains(cfg.optstring, c);
    var at := IndexOf(cfg.optstring, c);
    if at >= 0 { assert DescribedAt(cfg.optstring, c, at); }
  }

  /** What is left of an element is letters, or names a long option, one too many, or none. */
  lemma EveryText(cfg: Config, arg: string, text: string) returns (name: string, m: Match)
    requires text != ""
    ensures Letters(cfg, arg, text)
            || (LongFirst(cfg, arg) && NameIn(text, name) && Selects(cfg.longOptions.value, name, m))
    ensures !Letters(cfg, arg, text) && m.Nothing? ==> !cfg.longOnly || Dashed(arg) || text[0] !in cfg.optstring
  {
    var i := IndexOf(text, '=');
    name, m := if i == -1 then text else text[..i], Nothing;
    if LongFirst(cfg, arg) {
      m := Selected(cfg.longOptions.value, name);
      SelectedSelects(cfg.longOptions.value, name);
      assert NameIn(text, name);
    }
  }

  /** Every call that does not just end the scan decodes an element, or stops where there is no option. */
  lemma EveryCall(cfg: Config, argv: seq<string>, s: Scan) returns (k: nat, text: string)
    requires Ready(cfg, argv, s)
    ensures LooksAt(cfg, argv, s, k, text)
            || (Stops(cfg, argv, s, k) && (k < |argv| ==> argv[k] == "--" || !OptionLike(argv[k])))
  {
    k, text := s.p.optind, s.p.nextchar;
    if text == "" {
      k := NextAt(cfg, argv, s.p.optind);
      if k < |argv| && OptionLike(argv[k]) && argv[k] != "--" {
        text := if Dashed(argv[k]) then argv[k][2..] else argv[k][1..];
      }
    }
  }
}
