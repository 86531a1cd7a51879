/** Different ways of typing the same option mean the same to getopt(). */
module GetoptForms {
  import opened Getopts
  import opened Seqs

  /** A short option that requires an argument. */
  predicate Requires(cfg: Config, c: char) {
    var at := IndexOf(cfg.optstring, c);
    at >= 0 && c != ':' && Described(cfg, at, 1, ':') && !Described(cfg, at, 2, ':')
  }

  /**
   * "-oarg" and "-o arg": the same option with the same argument, and the scan goes on behind it - unless
   * POSIX ordering makes "--" mean something else in the second place.
   */
  lemma ArgumentEitherWay(cfg: Config, argv: seq<string>, p: Parse, other: seq<string>, q: Parse, c: char, arg: string)
    requires cfg.Valid() && Requires(cfg, c) && arg != ""
    requires p.optind < |argv| && p.nextchar == [c] + arg
    requires q.optind + 1 < |other| && q.nextchar == [c] && other[q.optind + 1] == arg
    requires !(cfg.posix && arg == "--")
    ensures var (ret, r), (ret', r') := Short(cfg, argv, p), Short(cfg, other, q);
      && ret == ret' == c as int && r.optarg == r'.optarg == Some(arg) && r.nextchar == r'.nextchar == ""
      && r.optind == p.optind + 1 && r'.optind == q.optind + 2
  {
    assert p.nextchar[1..] == arg;
    assert q.nextchar[1..] == "";
  }

  lemma NameEndOfName(name: string, more: string)
    requires forall i | 0 <= i < |name| :: name[i] != '='
    ensures NameEnd(name) == |name| && NameEnd(name + "=" + more) == |name|
  {
    var s := name + "=" + more;
    assert s[|name|] == '=';
    assert forall i | 0 <= i < |name| :: s[i] == name[i];
  }

  /** "--name=arg" and "--name arg", for a long option that requires an argument, abbreviated or not. */
  lemma LongArgumentEitherWay(cfg: Config, opts: seq<LongOpt>, argv: seq<string>, p: Parse,
                              other: seq<string>, q: Parse, name: string, arg: string, k: nat)
    requires (forall i | 0 <= i < |name| :: name[i] != '=') && Selected(opts, name) == Found(k) && k < |opts|
    requires opts[k].hasArg.RequiredArgument?
    requires p.optind < |argv| && p.nextchar == name + "=" + arg
    requires q.optind + 1 < |other| && q.nextchar == name && other[q.optind + 1] == arg
    ensures
      var (handled, ret, r) := CheckLong(cfg, opts, argv, p);
      var (handled', ret', r') := CheckLong(cfg, opts, other, q);
      && handled && handled' && ret == ret' == (if opts[k].flagged then 0 else opts[k].val)
      && r.optarg == r'.optarg == Some(arg) && r.longind == r'.longind == k
      && r.optind == p.optind + 1 && r'.optind == q.optind + 2
  {
    NameEndOfName(name, arg);
    assert p.nextchar[..|name|] == name && p.nextchar[|name| + 1..] == arg;
    assert q.nextchar[..|name|] == name;
  }

  /** At i and j the two argument lists go on alike, as far as one option can look. */
  ghost predicate AlikeFrom(argv: seq<string>, i: nat, other: seq<string>, j: nat) {
    (i < |argv| <==> j < |other|) && (i < |argv| && j < |other| ==> argv[i] == other[j])
  }

  lemma UseLongAlike(cfg: Config, o: LongOpt, argv: seq<string>, p: Parse, other: seq<string>, q: Parse, nameend: nat)
    requires p.optind <= |argv| && q.optind <= |other| && p.nextchar == q.nextchar && nameend <= |p.nextchar|
    requires AlikeFrom(argv, p.optind, other, q.optind)
    ensures var (ret, r), (ret', r') := UseLong(cfg, o, argv, p, nameend), UseLong(cfg, o, other, q, nameend);
      && ret == ret' && r.optind - p.optind == r'.optind - q.optind && r.longind == p.longind && r'.longind == q.longind
      && (r.optarg == r'.optarg || (r.optarg == p.optarg && r'.optarg == q.optarg))
  {
  }

  /**
   * "--text" and "-W text" come to the same: the same option is found, the same is reported, the scan
   * goes on equally far behind, and the argument is the same if the option takes one.
   */
  lemma LongByWIsLong(cfg: Config, argv: seq<string>, p: Parse, other: seq<string>, q: Parse)
    requires cfg.longOptions.Some? && p.optind < |argv| && CheckLong(cfg, cfg.longOptions.value, argv, p).0
    requires q.nextchar == "" && q.optind < |other| && other[q.optind] == p.nextchar
    requires AlikeFrom(argv, p.optind + 1, other, q.optind + 1)
    ensures var (_, ret, r), (ret', r') := CheckLong(cfg, cfg.longOptions.value, argv, p), LongByW(cfg, other, q);
      && ret == ret' && r.longind == r'.longind && r.optind - p.optind == r'.optind - q.optind
      && (r.optarg == r'.optarg || (r.optarg == p.optarg && r'.optarg == Some(p.nextchar)))
  {
    var text, opts := p.nextchar, cfg.longOptions.value;
    var nameend := NameEnd(text);
    match Selected(opts, text[..nameend]) {
      case Found(k) =>
        UseLongAlike(cfg, opts[k], argv, p.(optind := p.optind + 1, longind := k), other,
                     q.(nextchar := text, optarg := Some(text), optind := q.optind + 1, longind := k), nameend);
      case _ =>
    }
  }

  /** A short option without an argument. */
  predicate TakesNone(cfg: Config, c: char) {
    var at := IndexOf(cfg.optstring, c);
    at >= 0 && c != ':' && !(c == 'W' && Described(cfg, at, 1, ';')) && !Described(cfg, at, 1, ':')
  }

  function Codes(letters: string): seq<int> {
    if letters == "" then [] else [letters[0] as int] + Codes(letters[1..])
  }

  lemma OneLetter(cfg: Config, argv: seq<string>, s: Scan) returns (r: Scan)
    requires ScanOk(cfg, argv, s) && !s.done && !s.p.endparse && s.p.nextchar != "" && !cfg.TriesLong(argv[s.p.optind])
    requires TakesNone(cfg, s.p.nextchar[0])
    ensures (s.p.nextchar[0] as int, r) == Call(cfg, argv, s) && !r.done && ScanOk(cfg, argv, r) && !r.p.endparse
    ensures r.p.nextchar == s.p.nextchar[1..]
    ensures r.p.optind == s.p.optind + if r.p.nextchar == "" then 1 else 0
  {
    r := Call(cfg, argv, s).1;
  }

  /** "-abc" is "-a -b -c": every letter is reported in turn, and then the scan goes on behind the element. */
  lemma {:induction false} Cluster(cfg: Config, argv: seq<string>, s: Scan) returns (r: Scan)
    requires ScanOk(cfg, argv, s) && !s.done && !s.p.endparse && s.p.nextchar != "" && !cfg.TriesLong(argv[s.p.optind])
    requires forall i | 0 <= i < |s.p.nextchar| :: TakesNone(cfg, s.p.nextchar[i])
    ensures ScanOk(cfg, argv, r) && !r.done && r.p.nextchar == "" && r.p.optind == s.p.optind + 1
    ensures Reports(cfg, argv, s) == Codes(s.p.nextchar) + Reports(cfg, argv, r)
    decreases |s.p.nextchar|
  {
    var next := OneLetter(cfg, argv, s);
    var c, rest := s.p.nextchar[0] as int, s.p.nextchar[1..];
    CallMoves(cfg, argv, s);
    if rest == "" {
      r := next;
      assert Codes(s.p.nextchar) == [c];
    } else {
      r := Cluster(cfg, argv, next);
      ConcatAssociates([c], Codes(rest), Reports(cfg, argv, r));
    }
  }
}
