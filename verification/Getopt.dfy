/** GNU getopt: one call of getopt() after another, permuting argv so that the non-options end up last. */
module Getopts {
  import opened Seqs

  datatype Option<T> = None | Some(value: T)

  // ---- Strings ----

  function IndexOf(s: string, c: char): (r: int)
    ensures -1 <= r < |s|
    ensures r >= 0 ==> s[r] == c && forall j | 0 <= j < r :: s[j] != c
    ensures r == -1 ==> forall j | 0 <= j < |s| :: s[j] != c
  {
    if |s| == 0 then -1 else if s[0] == c then 0 else var r := IndexOf(s[1..], c); if r == -1 then -1 else r + 1
  }

  predicate StartsWith(s: string, prefix: string) {
    |prefix| <= |s| && s[..|prefix|] == prefix
  }

  /** Up to the first '='. */
  function NameEnd(s: string): (r: nat)
    ensures r <= |s|
  {
    if IndexOf(s, '=') == -1 then |s| else IndexOf(s, '=')
  }

  predicate NonOption(s: string) {
    s == "" || s[0] != '-' || s == "-"
  }

  // ---- Options ----

  datatype Arg = NoArgument | RequiredArgument | OptionalArgument

  /** flagged: the option stores its value in a buffer and is reported as 0. */
  datatype LongOpt = LongOpt(name: string, hasArg: Arg, flagged: bool, val: int)

  datatype Ordering = RequireOrder | Permute | ReturnInOrder

  datatype Config = Config(optstring: string, longOptions: Option<seq<LongOpt>>, longOnly: bool, posix: bool,
                           ordering: Ordering) {

    /** What the constructor guarantees; "W;" makes the code look at the long options. */
    ghost predicate Valid() {
      && |optstring| > 0 && (posix ==> !ordering.Permute?)
      && (longOptions.None? ==> forall k | 0 <= k < |optstring| - 1 ::
          !(optstring[k] == 'W' && optstring[k + 1] == ';'))
    }

    function Missing(): int { if |optstring| > 0 && optstring[0] == ':' then ':' as int else '?' as int }

    /** An element that may be a long option. */
    predicate TriesLong(arg: string)
      requires |arg| >= 2
    {
      longOptions.Some? && (StartsWith(arg, "--") || (longOnly && (|arg| > 2 || IndexOf(optstring, arg[1]) == -1)))
    }
  }

  /** What a name selects: nothing, an option by its full name or as the only one it abbreviates, or too many. */
  datatype Match = Nothing | Found(index: nat) | Ambiguous(first: nat)

  ghost predicate Selects(opts: seq<LongOpt>, name: string, m: Match) {
    match m
    case Nothing => forall i | 0 <= i < |opts| :: !StartsWith(opts[i].name, name)
    case Found(k) =>
      && k < |opts|
      && if opts[k].name == name then forall i | 0 <= i < k :: opts[i].name != name
         else StartsWith(opts[k].name, name) && forall i | 0 <= i < |opts| && i != k :: !StartsWith(opts[i].name, name)
    case Ambiguous(k) =>
      && k < |opts| && StartsWith(opts[k].name, name) && (forall i | 0 <= i < |opts| :: opts[i].name != name)
      && (forall i | 0 <= i < k :: !StartsWith(opts[i].name, name))
      && exists i :: k < i < |opts| && StartsWith(opts[i].name, name)
  }

  /** A name selects one thing. */
  lemma SelectsOne(opts: seq<LongOpt>, name: string, m: Match, n: Match)
    requires Selects(opts, name, m) && Selects(opts, name, n)
    ensures m == n
  {
  }

  /** The loop of checkLongOption over the long options. */
  method MatchLong(opts: seq<LongOpt>, name: string) returns (m: Match)
    ensures Selects(opts, name, m)
  {
    var pfound := -1;
    var ambig, exact := false, false;
    var i := 0;
    while i < |opts|
      invariant 0 <= i <= |opts| && -1 <= pfound < i && !exact
      invariant forall k | 0 <= k < i :: opts[k].name != name
      invariant pfound == -1 ==> !ambig && forall k | 0 <= k < i :: !StartsWith(opts[k].name, name)
      invariant pfound >= 0 ==>
                  StartsWith(opts[pfound].name, name) && forall k | 0 <= k < pfound :: !StartsWith(opts[k].name, name)
      invariant pfound >= 0 && !ambig ==> forall k | 0 <= k < i && k != pfound :: !StartsWith(opts[k].name, name)
      invariant ambig ==> pfound >= 0 && exists k :: pfound < k < i && StartsWith(opts[k].name, name)
    {
      if StartsWith(opts[i].name, name) {
        if opts[i].name == name {
          return Found(i);
        } else if pfound == -1 {
          pfound := i;
        } else {
          ambig := true;
        }
      }
      i := i + 1;
    }
    if ambig && !exact { return Ambiguous(pfound); }
    m := if pfound == -1 then Nothing else Found(pfound);
  }

  /** The first option of which the name is the full name, or -1. */
  function Exact(opts: seq<LongOpt>, name: string): (r: int)
    ensures -1 <= r < |opts|
  {
    if |opts| == 0 then -1 else if opts[0].name == name then 0
    else var r := Exact(opts[1..], name); if r == -1 then -1 else r + 1
  }

  lemma {:induction false} ExactIs(opts: seq<LongOpt>, name: string)
    ensures var r := Exact(opts, name);
      && -1 <= r < |opts| && (forall j | 0 <= j < |opts| && (r == -1 || j < r) :: opts[j].name != name)
      && (r >= 0 ==> opts[r].name == name)
  {
    if |opts| > 0 {
      ExactIs(opts[1..], name);
      assert forall j | 1 <= j < |opts| :: opts[j] == opts[1..][j - 1];
    }
  }

  /** The first option the name begins, or -1. */
  function Abbreviated(opts: seq<LongOpt>, name: string): (r: int)
    ensures -1 <= r < |opts|
  {
    if |opts| == 0 then -1 else if StartsWith(opts[0].name, name) then 0
    else var r := Abbreviated(opts[1..], name); if r == -1 then -1 else r + 1
  }

  lemma {:induction false} AbbreviatedIs(opts: seq<LongOpt>, name: string)
    ensures var r := Abbreviated(opts, name);
      && -1 <= r < |opts| && (forall j | 0 <= j < |opts| && (r == -1 || j < r) :: !StartsWith(opts[j].name, name))
      && (r >= 0 ==> StartsWith(opts[r].name, name))
  {
    if |opts| > 0 {
      AbbreviatedIs(opts[1..], name);
      assert forall j | 1 <= j < |opts| :: opts[j] == opts[1..][j - 1];
    }
  }

  function Selected(opts: seq<LongOpt>, name: string): (m: Match)
    ensures m.Found? ==> m.index < |opts|
  {
    var e, a := Exact(opts, name), Abbreviated(opts, name);
    if e != -1 then Found(e) else if a == -1 then Nothing
    else if Abbreviated(opts[a + 1..], name) == -1 then Found(a) else Ambiguous(a)
  }

  lemma SelectedSelects(opts: seq<LongOpt>, name: string)
    ensures Selects(opts, name, Selected(opts, name))
  {
    ExactIs(opts, name);
    AbbreviatedIs(opts, name);
    var a := Abbreviated(opts, name);
    if a != -1 {
      var rest := opts[a + 1..];
      AbbreviatedIs(rest, name);
      assert forall j | a < j < |opts| :: opts[j] == rest[j - a - 1];
    }
  }

  method FindLong(opts: seq<LongOpt>, name: string) returns (m: Match)
    ensures m == Selected(opts, name)
  {
    m := MatchLong(opts, name);
    SelectedSelects(opts, name);
    SelectsOne(opts, name, m, Selected(opts, name));
  }

  // ---- Decoding the current option element, on values ----

  /** The fields getopt() works on, apart from the permutation records. nextchar is "" also for null. */
  datatype Parse = Parse(optind: nat, nextchar: string, optarg: Option<string>, optopt: int, longind: int,
                         endparse: bool)

  /** checkLongOption: whether it handled the element, what it returns, and the fields after it. */
  function CheckLong(cfg: Config, opts: seq<LongOpt>, argv: seq<string>, p: Parse): (bool, int, Parse)
    requires p.optind < |argv|
  {
    var nameend := NameEnd(p.nextchar);
    match Selected(opts, p.nextchar[..nameend])
    case Nothing => (false, 0, p.(longind := -1))
    case Ambiguous(k) => (true, '?' as int, p.(nextchar := "", optopt := 0, optind := p.optind + 1, longind := k))
    case Found(k) =>
      var (ret, q) := UseLong(cfg, opts[k], argv, p.(optind := p.optind + 1, longind := k), nameend);
      (true, ret, q)
  }

  /** Long option o with its argument, after '=' at nameend or in the next element. */
  function UseLong(cfg: Config, o: LongOpt, argv: seq<string>, q: Parse, nameend: nat): (int, Parse)
    requires q.optind <= |argv| && nameend <= |q.nextchar|
  {
    var ret := if o.flagged then 0 else o.val;
    if nameend != |q.nextchar| then
      if o.hasArg.NoArgument? then ('?' as int, q.(nextchar := "", optopt := o.val))
      else (ret, q.(nextchar := "", optarg := Some(q.nextchar[nameend + 1..])))
    else if o.hasArg.RequiredArgument? then
      if q.optind < |argv| then (ret, q.(nextchar := "", optarg := Some(argv[q.optind]), optind := q.optind + 1))
      else (cfg.Missing(), q.(nextchar := "", optopt := o.val))
    else (ret, q.(nextchar := ""))
  }

  /** The short option whose character stands first in nextchar. */
  function Short(cfg: Config, argv: seq<string>, p: Parse): (int, Parse)
    requires cfg.Valid() && p.optind < |argv| && p.nextchar != ""
  {
    ShortOption(cfg, argv, Taken(p), p.nextchar[0])
  }

  /** Character k of the description of the option that starts at index at. */
  predicate Described(cfg: Config, at: nat, k: nat, c: char) {
    at + k < |cfg.optstring| && cfg.optstring[at + k] == c
  }

  /** Short option c, already taken from nextchar. */
  function ShortOption(cfg: Config, argv: seq<string>, q: Parse, c: char): (int, Parse)
    requires q.optind <= |argv| && (q.nextchar != "" ==> q.optind < |argv|)
  {
    var at := IndexOf(cfg.optstring, c);
    if at == -1 || c == ':' then ('?' as int, q.(optopt := c as int))
    else if c == 'W' && Described(cfg, at, 1, ';') then LongByW(cfg, argv, q)
    else if Described(cfg, at, 1, ':') then
      if Described(cfg, at, 2, ':') then (c as int, ShortOptional(q)) else ShortArgument(cfg, argv, q, c as int)
    else (c as int, q)
  }

  /** An optional argument can only be the rest of the element. */
  function ShortOptional(q: Parse): Parse {
    if q.nextchar != "" then q.(optarg := Some(q.nextchar), optind := q.optind + 1, nextchar := "")
    else q.(optarg := None, nextchar := "")
  }

  /** The required argument of short option c: the rest of the element, or the next argument. */
  function ShortArgument(cfg: Config, argv: seq<string>, q: Parse, c: int): (int, Parse)
    requires q.optind <= |argv|
  {
    if q.nextchar != "" then (c, q.(optarg := Some(q.nextchar), optind := q.optind + 1, nextchar := ""))
    else if q.optind == |argv| then (cfg.Missing(), q.(optopt := c))
    else if cfg.posix && argv[q.optind] == "--" then
      if q.optind + 1 == |argv| then (cfg.Missing(), q.(optarg := Some("--"), optind := q.optind + 1, optopt := c))
      else (c, q.(optarg := Some(argv[q.optind + 1]), optind := q.optind + 2, nextchar := "", endparse := true))
    else (c, q.(optarg := Some(argv[q.optind]), optind := q.optind + 1, nextchar := ""))
  }

  /** "-W name" stands for "--name". */
  function LongByW(cfg: Config, argv: seq<string>, q: Parse): (int, Parse)
    requires q.optind <= |argv| && (q.nextchar != "" ==> q.optind < |argv|)
  {
    if q.nextchar == "" && q.optind == |argv| then (cfg.Missing(), q.(optopt := 'W' as int))
    else
      var name := if q.nextchar != "" then q.nextchar else argv[q.optind];
      var opts := if cfg.longOptions.Some? then cfg.longOptions.value else [];
      var (handled, ret, r) := CheckLong(cfg, opts, argv, q.(nextchar := name, optarg := Some(name)));
      if handled then (ret, r) else ('W' as int, r.(nextchar := "", optind := r.optind + 1))
  }

  /** Decodes one option of the element at optind, of which nextchar is the part not yet decoded. */
  function Decode(cfg: Config, argv: seq<string>, p: Parse): (int, Parse)
    requires cfg.Valid() && p.optind < |argv| && |argv[p.optind]| >= 2 && p.nextchar != ""
  {
    var arg := argv[p.optind];
    if cfg.TriesLong(arg) then
      var (handled, ret, q) := CheckLong(cfg, cfg.longOptions.value, argv, p);
      if handled then (ret, q)
      else if TriesShort(cfg, arg, p.nextchar) then Short(cfg, argv, q)
      else ('?' as int, q.(nextchar := "", optind := p.optind + 1, optopt := 0))
    else Short(cfg, argv, p)
  }

  /** The position has moved on exactly when nothing is left of the element. */
  ghost predicate Moved(p: Parse, q: Parse, size: nat, most: nat) {
    && p.optind <= q.optind <= size && q.optind <= p.optind + most
    && (q.nextchar == "" <==> q.optind > p.optind) && (q.nextchar != "" ==> |q.nextchar| < |p.nextchar|)
  }

  lemma UseLongMoves(cfg: Config, o: LongOpt, argv: seq<string>, q: Parse, nameend: nat)
    requires q.optind <= |argv| && nameend <= |q.nextchar|
    ensures var r := UseLong(cfg, o, argv, q, nameend).1;
      r.nextchar == "" && r.endparse == q.endparse && q.optind <= r.optind <= |argv| && r.optind <= q.optind + 1
  {
  }

  lemma CheckLongMoves(cfg: Config, opts: seq<LongOpt>, argv: seq<string>, p: Parse)
    requires p.optind < |argv|
    ensures var (handled, ret, q) := CheckLong(cfg, opts, argv, p);
      && q.endparse == p.endparse
      && if handled then q.nextchar == "" && p.optind < q.optind <= |argv| && q.optind <= p.optind + 2
         else q == p.(longind := -1)
  {
    var nameend := NameEnd(p.nextchar);
    match Selected(opts, p.nextchar[..nameend]) {
      case Found(k) => UseLongMoves(cfg, opts[k], argv, p.(optind := p.optind + 1, longind := k), nameend);
      case _ =>
    }
  }

  lemma LongByWMoves(cfg: Config, argv: seq<string>, q: Parse)
    requires q.optind <= |argv| && (q.nextchar != "" ==> q.optind < |argv|)
    ensures var r := LongByW(cfg, argv, q).1;
      && r.endparse == q.endparse && r.nextchar == "" && r.optind <= |argv| && r.optind <= q.optind + 2
      && if q.nextchar == "" then q.optind <= r.optind else q.optind < r.optind
  {
    if !(q.nextchar == "" && q.optind == |argv|) {
      var name := if q.nextchar != "" then q.nextchar else argv[q.optind];
      var opts := if cfg.longOptions.Some? then cfg.longOptions.value else [];
      CheckLongMoves(cfg, opts, argv, q.(nextchar := name, optarg := Some(name)));
    }
  }

  lemma ShortArgumentMoves(cfg: Config, argv: seq<string>, q: Parse, c: int)
    requires q.optind <= |argv| && (q.nextchar != "" ==> q.optind < |argv|)
    ensures var r := ShortArgument(cfg, argv, q, c).1;
      && r.nextchar == "" && r.optind <= |argv| && r.optind <= q.optind + 2
      && (if q.nextchar == "" then q.optind <= r.optind else q.optind < r.optind)
      && (r.endparse ==> q.endparse || cfg.posix)
  {
  }

  /** What the code that handles a short option may do with the position. */
  ghost predicate ShortMoved(cfg: Config, q: Parse, r: Parse, size: nat) {
    && r.optind <= size && r.optind <= q.optind + 2 && (r.endparse ==> q.endparse || cfg.posix)
    && if r.nextchar == "" then r.optind >= q.optind && (q.nextchar != "" ==> r.optind > q.optind)
       else r.nextchar == q.nextchar && r.optind == q.optind
  }

  lemma ShortOptionMoves(cfg: Config, argv: seq<string>, q: Parse, c: char, r: Parse)
    requires q.optind <= |argv| && (q.nextchar != "" ==> q.optind < |argv|) && r == ShortOption(cfg, argv, q, c).1
    ensures ShortMoved(cfg, q, r, |argv|)
  {
    LongByWMoves(cfg, argv, q);
    ShortArgumentMoves(cfg, argv, q, c as int);
  }

  /** p with its first character taken. */
  function Taken(p: Parse): (q: Parse)
    requires p.nextchar != ""
    ensures |q.nextchar| == |p.nextchar| - 1 && q.optind == (if |p.nextchar| == 1 then p.optind + 1 else p.optind)
    ensures q.endparse == p.endparse
  {
    var more := p.nextchar[1..];
    p.(nextchar := more, optind := if more == "" then p.optind + 1 else p.optind)
  }

  lemma ShortMoves(cfg: Config, argv: seq<string>, p: Parse, r: Parse)
    requires cfg.Valid() && p.optind < |argv| && p.nextchar != "" && r == Short(cfg, argv, p).1
    ensures Moved(p, r, |argv|, 3) && (r.endparse ==> p.endparse || cfg.posix)
  {
    ShortOptionMoves(cfg, argv, Taken(p), p.nextchar[0], r);
  }

  /** Decoding moves on, and stays at the element while there is something left of it. */
  lemma DecodeMoves(cfg: Config, argv: seq<string>, p: Parse)
    requires cfg.Valid() && p.optind < |argv| && |argv[p.optind]| >= 2 && p.nextchar != ""
    ensures Moved(p, Decode(cfg, argv, p).1, |argv|, 3) && (Decode(cfg, argv, p).1.endparse ==> p.endparse || cfg.posix)
  {
    if cfg.TriesLong(argv[p.optind]) {
      CheckLongMoves(cfg, cfg.longOptions.value, argv, p);
      ShortMoves(cfg, argv, p.(longind := -1), Short(cfg, argv, p.(longind := -1)).1);
    } else {
      ShortMoves(cfg, argv, p, Short(cfg, argv, p).1);
    }
  }

  /** The two argument lists agree from index i on. */
  ghost predicate SameFrom(a: seq<string>, b: seq<string>, i: nat) {
    |a| == |b| && forall u: nat :: SameFromAt(u, a, b, i)
  }

  ghost predicate SameFromAt(unused: nat, a: seq<string>, b: seq<string>, i: nat) {
    |a| == |b| && forall k | i <= k < |a| :: a[k] == b[k]
  }

  lemma SameFromLater(a: seq<string>, b: seq<string>, i: nat, j: nat)
    requires SameFrom(a, b, i) && i <= j
    ensures SameFrom(a, b, j)
  {
    assert SameFromAt(0, a, b, i);
    forall u: nat ensures SameFromAt(u, a, b, j) { }
  }

  lemma CheckLongSuffix(cfg: Config, opts: seq<LongOpt>, argv: seq<string>, other: seq<string>, p: Parse)
    requires p.optind < |argv| && SameFrom(argv, other, p.optind)
    ensures CheckLong(cfg, opts, argv, p) == CheckLong(cfg, opts, other, p)
  {
    assert SameFromAt(0, argv, other, p.optind);
  }

  lemma LongByWSuffix(cfg: Config, argv: seq<string>, other: seq<string>, q: Parse)
    requires q.optind <= |argv| && (q.nextchar != "" ==> q.optind < |argv|) && SameFrom(argv, other, q.optind)
    ensures LongByW(cfg, argv, q) == LongByW(cfg, other, q)
  {
    if !(q.nextchar == "" && q.optind == |argv|) {
      assert SameFromAt(0, argv, other, q.optind);
      var name := if q.nextchar != "" then q.nextchar else argv[q.optind];
      var opts := if cfg.longOptions.Some? then cfg.longOptions.value else [];
      CheckLongSuffix(cfg, opts, argv, other, q.(nextchar := name, optarg := Some(name)));
    }
  }

  lemma ShortArgumentSuffix(cfg: Config, argv: seq<string>, other: seq<string>, q: Parse, c: int)
    requires q.optind <= |argv| && SameFrom(argv, other, q.optind)
    ensures ShortArgument(cfg, argv, q, c) == ShortArgument(cfg, other, q, c)
  {
    assert SameFromAt(0, argv, other, q.optind);
  }

  lemma ShortSuffix(cfg: Config, argv: seq<string>, other: seq<string>, p: Parse)
    requires cfg.Valid() && p.optind < |argv| && p.nextchar != "" && SameFrom(argv, other, p.optind)
    ensures Short(cfg, argv, p) == Short(cfg, other, p)
  {
    SameFromLater(argv, other, p.optind, Taken(p).optind);
    LongByWSuffix(cfg, argv, other, Taken(p));
    ShortArgumentSuffix(cfg, argv, other, Taken(p), p.nextchar[0] as int);
  }

  /** Decoding sees only the arguments from optind on. */
  lemma DecodeSuffix(cfg: Config, argv: seq<string>, other: seq<string>, p: Parse)
    requires cfg.Valid() && p.optind < |argv| && |argv[p.optind]| >= 2 && p.nextchar != ""
    requires SameFrom(argv, other, p.optind)
    ensures |other| == |argv| && |other[p.optind]| >= 2
    ensures Decode(cfg, argv, p) == Decode(cfg, other, p)
  {
    assert SameFromAt(0, argv, other, p.optind);
    if cfg.TriesLong(argv[p.optind]) {
      CheckLongSuffix(cfg, cfg.longOptions.value, argv, other, p);
      CheckLongMoves(cfg, cfg.longOptions.value, argv, p);
      ShortSuffix(cfg, argv, other, p.(longind := -1));
    } else {
      ShortSuffix(cfg, argv, other, p);
    }
  }

  // ---- The same results, folded for the methods ----

  /** handled, c and q are what looking nextchar up comes to. */
  ghost predicate Checks(cfg: Config, opts: seq<LongOpt>, a: seq<string>, p: Parse, handled: bool, c: int, q: Parse) {
    forall u: nat :: ChecksAt(u, cfg, opts, a, p, handled, c, q)
  }

  ghost predicate ChecksAt(unused: nat, cfg: Config, opts: seq<LongOpt>, a: seq<string>, p: Parse,
                           handled: bool, c: int, q: Parse)
  {
    p.optind < |a| && (handled, c, q) == CheckLong(cfg, opts, a, p)
  }

  /** c and q are what "-W" comes to, from p on. */
  ghost predicate DecodesW(cfg: Config, a: seq<string>, p: Parse, c: int, q: Parse) {
    forall u: nat :: DecodesWAt(u, cfg, a, p, c, q)
  }

  ghost predicate DecodesWAt(unused: nat, cfg: Config, a: seq<string>, p: Parse, c: int, q: Parse) {
    p.optind <= |a| && (p.nextchar != "" ==> p.optind < |a|) && (c, q) == LongByW(cfg, a, p)
  }

  ghost predicate DecodesShort(cfg: Config, a: seq<string>, p: Parse, c: int, q: Parse) {
    forall u: nat :: DecodesShortAt(u, cfg, a, p, c, q)
  }

  ghost predicate DecodesShortAt(unused: nat, cfg: Config, a: seq<string>, p: Parse, c: int, q: Parse) {
    cfg.Valid() && p.optind < |a| && p.nextchar != "" && (c, q) == Short(cfg, a, p)
  }

  ghost predicate Decodes(cfg: Config, a: seq<string>, p: Parse, c: int, q: Parse) {
    forall u: nat :: DecodesAt(u, cfg, a, p, c, q)
  }

  ghost predicate DecodesAt(unused: nat, cfg: Config, a: seq<string>, p: Parse, c: int, q: Parse) {
    cfg.Valid() && p.optind < |a| && |a[p.optind]| >= 2 && p.nextchar != "" && (c, q) == Decode(cfg, a, p)
  }

  lemma ChecksIs(cfg: Config, opts: seq<LongOpt>, a: seq<string>, p: Parse, handled: bool, c: int, q: Parse)
    requires p.optind < |a| && (handled, c, q) == CheckLong(cfg, opts, a, p)
    ensures Checks(cfg, opts, a, p, handled, c, q)
  {
    forall u: nat ensures ChecksAt(u, cfg, opts, a, p, handled, c, q) { }
  }

  lemma NothingAfterW(cfg: Config, a: seq<string>, p: Parse, c: int, q: Parse)
    requires p.nextchar == "" && p.optind == |a| && (c, q) == (cfg.Missing(), p.(optopt := 'W' as int))
    ensures DecodesW(cfg, a, p, c, q)
  {
    forall u: nat ensures DecodesWAt(u, cfg, a, p, c, q) { }
  }

  lemma NameAfterW(cfg: Config, a: seq<string>, p: Parse, name: string, handled: bool, ret: int, q: Parse, c: int,
                   r: Parse)
    requires p.optind < |a| && name == if p.nextchar != "" then p.nextchar else a[p.optind]
    requires var opts := if cfg.longOptions.Some? then cfg.longOptions.value else [];
      Checks(cfg, opts, a, p.(nextchar := name, optarg := Some(name)), handled, ret, q)
    requires (c, r) == if handled then (ret, q) else ('W' as int, q.(nextchar := "", optind := q.optind + 1))
    ensures DecodesW(cfg, a, p, c, r)
  {
    var opts := if cfg.longOptions.Some? then cfg.longOptions.value else [];
    assert ChecksAt(0, cfg, opts, a, p.(nextchar := name, optarg := Some(name)), handled, ret, q);
    forall u: nat ensures DecodesWAt(u, cfg, a, p, c, r) { }
  }

  lemma UnknownShort(cfg: Config, a: seq<string>, p: Parse, c: int, r: Parse)
    requires cfg.Valid() && p.optind < |a| && p.nextchar != ""
    requires IndexOf(cfg.optstring, p.nextchar[0]) == -1 || p.nextchar[0] == ':'
    requires (c, r) == ('?' as int, Taken(p).(optopt := p.nextchar[0] as int))
    ensures DecodesShort(cfg, a, p, c, r)
  {
    forall u: nat ensures DecodesShortAt(u, cfg, a, p, c, r) { }
  }

  /** A known short option, of which the case is decided by its description. */
  lemma KnownShort(cfg: Config, a: seq<string>, p: Parse, at: nat, c: int, r: Parse)
    requires cfg.Valid() && p.optind < |a| && p.nextchar != ""
    requires at == IndexOf(cfg.optstring, p.nextchar[0]) && p.nextchar[0] != ':'
    requires
      if p.nextchar[0] == 'W' && Described(cfg, at, 1, ';') then DecodesW(cfg, a, Taken(p), c, r)
      else if !Described(cfg, at, 1, ':') then (c, r) == (p.nextchar[0] as int, Taken(p))
      else if Described(cfg, at, 2, ':') then (c, r) == (p.nextchar[0] as int, ShortOptional(Taken(p)))
      else (c, r) == ShortArgument(cfg, a, Taken(p), p.nextchar[0] as int)
    ensures DecodesShort(cfg, a, p, c, r)
  {
    if p.nextchar[0] == 'W' && Described(cfg, at, 1, ';') { assert DecodesWAt(0, cfg, a, Taken(p), c, r); }
    forall u: nat ensures DecodesShortAt(u, cfg, a, p, c, r) { }
  }

  lemma LongDecodes(cfg: Config, a: seq<string>, p: Parse, c: int, q: Parse)
    requires cfg.Valid() && p.optind < |a| && |a[p.optind]| >= 2 && p.nextchar != "" && cfg.TriesLong(a[p.optind])
    requires Checks(cfg, cfg.longOptions.value, a, p, true, c, q)
    ensures Decodes(cfg, a, p, c, q)
  {
    assert ChecksAt(0, cfg, cfg.longOptions.value, a, p, true, c, q);
    forall u: nat ensures DecodesAt(u, cfg, a, p, c, q) { }
  }

  lemma NotLong(cfg: Config, opts: seq<LongOpt>, a: seq<string>, p: Parse, c: int, q: Parse)
    requires Checks(cfg, opts, a, p, false, c, q)
    ensures q == p.(longind := -1)
  {
    assert ChecksAt(0, cfg, opts, a, p, false, c, q);
    CheckLongMoves(cfg, opts, a, p);
  }

  /** Whether an element that names no long option may still hold short ones. */
  predicate TriesShort(cfg: Config, arg: string, nextchar: string)
    requires nextchar != ""
  {
    cfg.longOnly && !StartsWith(arg, "--") && IndexOf(cfg.optstring, nextchar[0]) != -1
  }

  lemma UnknownLong(cfg: Config, a: seq<string>, p: Parse, c: int, q: Parse, d: int, r: Parse)
    requires cfg.Valid() && p.optind < |a| && |a[p.optind]| >= 2 && p.nextchar != "" && cfg.TriesLong(a[p.optind])
    requires Checks(cfg, cfg.longOptions.value, a, p, false, c, q) && !TriesShort(cfg, a[p.optind], p.nextchar)
    requires (d, r) == ('?' as int, q.(nextchar := "", optind := p.optind + 1, optopt := 0))
    ensures Decodes(cfg, a, p, d, r)
  {
    assert ChecksAt(0, cfg, cfg.longOptions.value, a, p, false, c, q);
    forall u: nat ensures DecodesAt(u, cfg, a, p, d, r) { }
  }

  lemma ShortAfterLong(cfg: Config, a: seq<string>, p: Parse, c: int, q: Parse, d: int, r: Parse)
    requires cfg.Valid() && p.optind < |a| && |a[p.optind]| >= 2 && p.nextchar != "" && cfg.TriesLong(a[p.optind])
    requires Checks(cfg, cfg.longOptions.value, a, p, false, c, q) && TriesShort(cfg, a[p.optind], p.nextchar)
    requires DecodesShort(cfg, a, q, d, r)
    ensures Decodes(cfg, a, p, d, r)
  {
    NotLong(cfg, cfg.longOptions.value, a, p, c, q);
    assert ChecksAt(0, cfg, cfg.longOptions.value, a, p, false, c, q);
    assert DecodesShortAt(0, cfg, a, q, d, r);
    forall u: nat ensures DecodesAt(u, cfg, a, p, d, r) { }
  }

  lemma ShortOnly(cfg: Config, a: seq<string>, p: Parse, c: int, q: Parse)
    requires cfg.Valid() && p.optind < |a| && |a[p.optind]| >= 2 && p.nextchar != "" && !cfg.TriesLong(a[p.optind])
    requires DecodesShort(cfg, a, p, c, q)
    ensures Decodes(cfg, a, p, c, q)
  {
    assert DecodesShortAt(0, cfg, a, p, c, q);
    forall u: nat ensures DecodesAt(u, cfg, a, p, c, q) { }
  }

  // ---- The scan of the arguments as given ----

  /** kinds tells, for each argument passed, whether it was an option, an option's argument or "--". */
  datatype Scan = Scan(p: Parse, kinds: seq<bool>, done: bool)

  function Same(b: bool, n: nat): (r: seq<bool>)
    ensures |r| == n && forall i | 0 <= i < n :: r[i] == b
  {
    seq(n, (i: nat) => b)
  }

  /** The next argument from index i on that looks like an option. */
  function Skip(argv: seq<string>, i: nat): (k: nat)
    requires i <= |argv|
    ensures i <= k <= |argv| && (forall j | i <= j < k :: NonOption(argv[j])) && (k < |argv| ==> !NonOption(argv[k]))
    decreases |argv| - i
  {
    if i == |argv| || !NonOption(argv[i]) then i else Skip(argv, i + 1)
  }

  /** An option element without its punctuation. */
  function Strip(arg: string): (r: string)
    requires !NonOption(arg) && arg != "--"
    ensures |arg| >= 2 && r != ""
  {
    if StartsWith(arg, "--") then arg[2..] else arg[1..]
  }

  ghost predicate ScanOk(cfg: Config, argv: seq<string>, s: Scan) {
    && cfg.Valid() && s.p.optind <= |argv| && |s.kinds| == s.p.optind
    && (s.p.nextchar != "" ==> s.p.optind < |argv| && |argv[s.p.optind]| >= 2)
  }

  /** Decoding an option: everything it takes is of the option kind. */
  ghost function Take(cfg: Config, argv: seq<string>, s: Scan): (r: (int, Scan))
    requires ScanOk(cfg, argv, s) && s.p.nextchar != ""
    ensures ScanOk(cfg, argv, r.1)
  {
    DecodeMoves(cfg, argv, s.p);
    var (ret, q) := Decode(cfg, argv, s.p);
    (ret, Scan(q, s.kinds + Same(true, q.optind - s.p.optind), false))
  }

  /** What one call of getopt() reports, on arguments that are not permuted. */
  ghost function Call(cfg: Config, argv: seq<string>, s: Scan): (r: (int, Scan))
    requires ScanOk(cfg, argv, s) && !s.done
    ensures !r.1.done ==> ScanOk(cfg, argv, r.1)
  {
    var p := s.p.(optarg := None);
    if p.endparse then (-1, Scan(p, s.kinds, true))
    else if p.nextchar != "" then Take(cfg, argv, s.(p := p))
    else
      var k := if cfg.ordering.Permute? then Skip(argv, p.optind) else p.optind;
      var skipped := s.kinds + Same(false, k - p.optind);
      if k < |argv| && argv[k] == "--" then (-1,
                                             Scan(p.(optind := k + 1), skipped + [true] + Same(false, |argv| - k - 1),
                                                  true))
      else if k == |argv| then (-1, Scan(p.(optind := k), skipped, true))
      else if NonOption(argv[k]) then
        if cfg.ordering.RequireOrder? then (-1, Scan(p, skipped, true))
        else (1, Scan(p.(optarg := Some(argv[k]), optind := k + 1), skipped + [true], false))
      else Take(cfg, argv, Scan(p.(optind := k, nextchar := Strip(argv[k])), skipped, false))
  }

  /** c and r are what decoding the option found comes to. */
  ghost predicate Takes(cfg: Config, argv: seq<string>, s: Scan, c: int, r: Scan) {
    forall u: nat :: TakesAt(u, cfg, argv, s, c, r)
  }

  ghost predicate TakesAt(unused: nat, cfg: Config, argv: seq<string>, s: Scan, c: int, r: Scan) {
    ScanOk(cfg, argv, s) && s.p.nextchar != "" && (c, r) == Take(cfg, argv, s)
  }

  /** c and r are what one call comes to. */
  ghost predicate Calls(cfg: Config, argv: seq<string>, s: Scan, c: int, r: Scan) {
    forall u: nat :: CallsAt(u, cfg, argv, s, c, r)
  }

  ghost predicate CallsAt(unused: nat, cfg: Config, argv: seq<string>, s: Scan, c: int, r: Scan) {
    ScanOk(cfg, argv, s) && !s.done && (c, r) == Call(cfg, argv, s)
  }

  lemma DecodedMoves(cfg: Config, argv: seq<string>, a: seq<string>, s: Scan, c: int, q: Parse)
    requires ScanOk(cfg, argv, s) && s.p.nextchar != "" && SameFrom(argv, a, s.p.optind) && Decodes(cfg, a, s.p, c, q)
    ensures s.p.optind <= q.optind <= |argv| && (q.endparse ==> s.p.endparse || cfg.posix)
    ensures (c, q) == Decode(cfg, argv, s.p)
  {
    assert DecodesAt(0, cfg, a, s.p, c, q);
    DecodeSuffix(cfg, argv, a, s.p);
    DecodeMoves(cfg, argv, s.p);
  }

  lemma TakesDecoded(cfg: Config, argv: seq<string>, a: seq<string>, s: Scan, c: int, q: Parse) returns (r: Scan)
    requires ScanOk(cfg, argv, s) && s.p.nextchar != "" && SameFrom(argv, a, s.p.optind) && Decodes(cfg, a, s.p, c, q)
    ensures s.p.optind <= q.optind <= |argv| && (q.endparse ==> s.p.endparse || cfg.posix)
    ensures r == Scan(q, s.kinds + Same(true, q.optind - s.p.optind), false) && Takes(cfg, argv, s, c, r)
  {
    DecodedMoves(cfg, argv, a, s, c, q);
    r := Scan(q, s.kinds + Same(true, q.optind - s.p.optind), false);
    forall u: nat ensures TakesAt(u, cfg, argv, s, c, r) { }
  }

  /** Where a call between elements looks next, and the kinds of the arguments up to there. */
  function NextAt(cfg: Config, argv: seq<string>, i: nat): (k: nat)
    requires i <= |argv|
    ensures i <= k <= |argv|
  {
    if cfg.ordering.Permute? then Skip(argv, i) else i
  }

  ghost predicate Between(cfg: Config, argv: seq<string>, s: Scan) {
    ScanOk(cfg, argv, s) && !s.done && s.p.nextchar == "" && !s.p.endparse
  }

  lemma CallAtDashes(cfg: Config, argv: seq<string>, s: Scan, k: nat, kinds: seq<bool>, r: Scan)
    requires Between(cfg, argv, s) && k == NextAt(cfg, argv, s.p.optind)
             && kinds == s.kinds + Same(false, k - s.p.optind)
    requires k < |argv| && argv[k] == "--"
    requires r == Scan(s.p.(optarg := None, optind := k + 1), kinds + [true] + Same(false, |argv| - k - 1), true)
    ensures Calls(cfg, argv, s, -1, r)
  {
    forall u: nat ensures CallsAt(u, cfg, argv, s, -1, r) { }
  }

  lemma CallAtEnd(cfg: Config, argv: seq<string>, s: Scan, k: nat, kinds: seq<bool>, r: Scan)
    requires Between(cfg, argv, s) && k == NextAt(cfg, argv, s.p.optind)
             && kinds == s.kinds + Same(false, k - s.p.optind)
    requires k == |argv| && r == Scan(s.p.(optarg := None, optind := k), kinds, true)
    ensures Calls(cfg, argv, s, -1, r)
  {
    forall u: nat ensures CallsAt(u, cfg, argv, s, -1, r) { }
  }

  lemma CallAtNonOption(cfg: Config, argv: seq<string>, s: Scan, k: nat, kinds: seq<bool>, c: int, r: Scan)
    requires Between(cfg, argv, s) && k == NextAt(cfg, argv, s.p.optind)
             && kinds == s.kinds + Same(false, k - s.p.optind)
    requires k < |argv| && NonOption(argv[k])
    requires (c, r) == if cfg.ordering.RequireOrder? then (-1, Scan(s.p.(optarg := None), kinds, true))
                       else (1, Scan(s.p.(optarg := Some(argv[k]), optind := k + 1), kinds + [true], false))
    ensures Calls(cfg, argv, s, c, r) && !cfg.ordering.Permute?
  {
    assert argv[k] != "--";
    forall u: nat ensures CallsAt(u, cfg, argv, s, c, r) { }
  }

  /** A call that finds an option at t decodes it. */
  lemma CallAtOption(cfg: Config, argv: seq<string>, s: Scan, k: nat, t: Scan)
    requires Between(cfg, argv, s) && k == NextAt(cfg, argv, s.p.optind)
    requires k < |argv| && !NonOption(argv[k]) && argv[k] != "--"
    requires t == Scan(s.p.(optarg := None, optind := k, nextchar := Strip(argv[k])),
                       s.kinds + Same(false, k - s.p.optind), false)
    ensures ScanOk(cfg, argv, t) && Continues(cfg, argv, s, t)
  {
    forall u: nat ensures ContinuesAt(u, cfg, argv, s, t) { }
  }

  lemma CallWithinElement(cfg: Config, argv: seq<string>, s: Scan, t: Scan)
    requires ScanOk(cfg, argv, s) && !s.done && s.p.nextchar != "" && !s.p.endparse
             && t == s.(p := s.p.(optarg := None))
    ensures ScanOk(cfg, argv, t) && Continues(cfg, argv, s, t)
  {
    forall u: nat ensures ContinuesAt(u, cfg, argv, s, t) { }
  }

  /** The call from s comes to decoding the option found at t. */
  ghost predicate Continues(cfg: Config, argv: seq<string>, s: Scan, t: Scan) {
    forall u: nat :: ContinuesAt(u, cfg, argv, s, t)
  }

  ghost predicate ContinuesAt(unused: nat, cfg: Config, argv: seq<string>, s: Scan, t: Scan) {
    && ScanOk(cfg, argv, s) && !s.done && ScanOk(cfg, argv, t) && t.p.nextchar != ""
    && Call(cfg, argv, s) == Take(cfg, argv, t)
  }

  lemma CallTakes(cfg: Config, argv: seq<string>, s: Scan, t: Scan, c: int, r: Scan)
    requires Continues(cfg, argv, s, t) && Takes(cfg, argv, t, c, r)
    ensures Calls(cfg, argv, s, c, r) && ScanOk(cfg, argv, r) && !r.done
  {
    assert ContinuesAt(0, cfg, argv, s, t) && TakesAt(0, cfg, argv, t, c, r);
    forall u: nat ensures CallsAt(u, cfg, argv, s, c, r) { }
  }

  lemma CallsOk(cfg: Config, argv: seq<string>, s: Scan, c: int, r: Scan)
    requires Calls(cfg, argv, s, c, r)
    ensures ScanOk(cfg, argv, s) && !s.done && (c, r) == Call(cfg, argv, s)
    ensures r.done ==> c == -1
    ensures !r.done ==> ScanOk(cfg, argv, r)
  {
    assert CallsAt(0, cfg, argv, s, c, r);
  }

  lemma CallIs(cfg: Config, argv: seq<string>, s: Scan, c: int, r: Scan)
    requires ScanOk(cfg, argv, s) && !s.done && (c, r) == Call(cfg, argv, s)
    ensures Calls(cfg, argv, s, c, r)
  {
    forall u: nat ensures CallsAt(u, cfg, argv, s, c, r) { }
  }

  lemma CallAtEndparse(cfg: Config, argv: seq<string>, s: Scan, r: Scan)
    requires ScanOk(cfg, argv, s) && !s.done && s.p.endparse && r == Scan(s.p.(optarg := None), s.kinds, true)
    ensures Calls(cfg, argv, s, -1, r)
  {
    forall u: nat ensures CallsAt(u, cfg, argv, s, -1, r) { }
  }

  /** How much of the current element is left. */
  ghost function Left(argv: seq<string>, p: Parse): nat {
    if p.nextchar != "" then |p.nextchar| else if p.optind < |argv| then |argv[p.optind]| + 1 else 0
  }

  /** Every call but the last consumes something, so the calls end. */
  lemma CallMoves(cfg: Config, argv: seq<string>, s: Scan)
    requires ScanOk(cfg, argv, s) && !s.done
    ensures var r := Call(cfg, argv, s).1;
      r.done || r.p.optind > s.p.optind || (r.p.optind == s.p.optind && Left(argv, r.p) < Left(argv, s.p))
  {
    var p := s.p.(optarg := None);
    if p.endparse {
    } else if p.nextchar != "" {
      DecodeMoves(cfg, argv, p);
    } else {
      var k := if cfg.ordering.Permute? then Skip(argv, p.optind) else p.optind;
      if k < |argv| && argv[k] != "--" && !NonOption(argv[k]) {
        DecodeMoves(cfg, argv, p.(optind := k, nextchar := Strip(argv[k])));
      }
    }
  }

  /** All calls, up to the first -1 that ends the scan. */
  ghost function AllCalls(cfg: Config, argv: seq<string>, s: Scan): (r: Scan)
    requires ScanOk(cfg, argv, s) && !s.done
    ensures r.done
    decreases |argv| - s.p.optind, Left(argv, s.p)
  {
    CallMoves(cfg, argv, s);
    var r := Call(cfg, argv, s).1;
    if r.done then r else AllCalls(cfg, argv, r)
  }

  /** What the calls report, up to the one that ends the scan. */
  ghost function Reports(cfg: Config, argv: seq<string>, s: Scan): seq<int>
    requires ScanOk(cfg, argv, s) && !s.done
    decreases |argv| - s.p.optind, Left(argv, s.p)
  {
    CallMoves(cfg, argv, s);
    var (ret, r) := Call(cfg, argv, s);
    if r.done then [] else [ret] + Reports(cfg, argv, r)
  }

  /** What a loop that stops at the first -1 gets to see, and where it leaves the scan. */
  ghost function UntilMinusOne(cfg: Config, argv: seq<string>, s: Scan): (seq<int>, Scan)
    requires ScanOk(cfg, argv, s) && !s.done
    decreases |argv| - s.p.optind, Left(argv, s.p)
  {
    CallMoves(cfg, argv, s);
    var (ret, r) := Call(cfg, argv, s);
    if ret == -1 || r.done then ([], r)
    else var (more, end) := UntilMinusOne(cfg, argv, r); ([ret] + more, end)
  }

  lemma DoneMeansMinusOne(cfg: Config, argv: seq<string>, s: Scan)
    requires ScanOk(cfg, argv, s) && !s.done
    ensures Call(cfg, argv, s).1.done ==> Call(cfg, argv, s).0 == -1
  {
  }

  /** A loop over the calls that began at start has seen options and last c, and is at s. */
  ghost predicate Along(cfg: Config, argv: seq<string>, start: Scan, s: Scan, options: seq<int>, c: int)
    requires ScanOk(cfg, argv, start) && !start.done
  {
    if c == -1 then (options, s) == UntilMinusOne(cfg, argv, start)
    else
      && !s.done && ScanOk(cfg, argv, s)
      && options + [c] + UntilMinusOne(cfg, argv, s).0 == UntilMinusOne(cfg, argv, start).0
      && UntilMinusOne(cfg, argv, s).1 == UntilMinusOne(cfg, argv, start).1
  }

  lemma UntilIs(cfg: Config, argv: seq<string>, s: Scan, c: int, r: Scan)
    requires ScanOk(cfg, argv, s) && !s.done && (c, r) == Call(cfg, argv, s)
    ensures c == -1 ==> UntilMinusOne(cfg, argv, s) == ([], r)
    ensures c != -1 ==>
              && !r.done && ScanOk(cfg, argv, r)
              && UntilMinusOne(cfg, argv, s) == ([c] + UntilMinusOne(cfg, argv, r).0, UntilMinusOne(cfg, argv, r).1)
  {
    DoneMeansMinusOne(cfg, argv, s);
  }

  lemma AlongFirst(cfg: Config, argv: seq<string>, s: Scan, c: int, r: Scan)
    requires Calls(cfg, argv, s, c, r)
    ensures ScanOk(cfg, argv, s) && !s.done && Along(cfg, argv, s, r, [], c)
  {
    CallsOk(cfg, argv, s, c, r);
    UntilIs(cfg, argv, s, c, r);
    assert [] + [c] == [c];
  }

  lemma AlongNext(cfg: Config, argv: seq<string>, start: Scan, s: Scan, options: seq<int>, b: int, c: int, r: Scan)
    requires ScanOk(cfg, argv, start) && !start.done && Along(cfg, argv, start, s, options, b) && b != -1
    requires Calls(cfg, argv, s, c, r)
    ensures Along(cfg, argv, start, r, options + [b], c)
  {
    CallsOk(cfg, argv, s, c, r);
    UntilIs(cfg, argv, s, c, r);
    if c == -1 {
      assert options + [b] + [] == options + [b];
    } else {
      ConcatAssociates(options + [b], [c], UntilMinusOne(cfg, argv, r).0);
    }
  }

  /** What is not of the option kind does not look like an option, or comes after "--". */
  ghost predicate OperandsOk(argv: seq<string>, kinds: seq<bool>) {
    |kinds| <= |argv| && forall i | 0 <= i < |kinds| && !kinds[i] :: NonOption(argv[i]) || AfterDashes(argv, kinds, i)
  }

  ghost predicate AfterDashes(argv: seq<string>, kinds: seq<bool>, i: nat) {
    exists j :: 0 <= j < i && j < |kinds| <= |argv| && kinds[j] && argv[j] == "--"
  }

  lemma CallOperands(cfg: Config, argv: seq<string>, s: Scan)
    requires ScanOk(cfg, argv, s) && !s.done && OperandsOk(argv, s.kinds)
    ensures OperandsOk(argv, Call(cfg, argv, s).1.kinds)
  {
  }

  /** The operands of the whole run are the arguments that do not look like options, or follow "--". */
  lemma {:induction false} Operands(cfg: Config, argv: seq<string>, s: Scan)
    requires ScanOk(cfg, argv, s) && !s.done && OperandsOk(argv, s.kinds)
    ensures OperandsOk(argv, AllCalls(cfg, argv, s).kinds)
    decreases |argv| - s.p.optind, Left(argv, s.p)
  {
    CallMoves(cfg, argv, s);
    CallOperands(cfg, argv, s);
    var r := Call(cfg, argv, s).1;
    if !r.done { Operands(cfg, argv, r); }
  }

  // ---- The stable partition ----

  /** The arguments of one kind, in order. */
  function Select<T>(s: seq<T>, kinds: seq<bool>, b: bool): seq<T>
    requires |kinds| <= |s|
  {
    if |kinds| == 0 then []
    else
      var n := |kinds| - 1;
      Select(s, kinds[..n], b) + if kinds[n] == b then [s[n]] else []
  }

  lemma SelectOne<T>(s: seq<T>, kinds: seq<bool>, longer: seq<bool>, b: bool)
    requires |kinds| < |s| && longer == kinds + [b]
    ensures Select(s, longer, b) == Select(s, kinds, b) + [s[|kinds|]]
    ensures Select(s, longer, !b) == Select(s, kinds, !b)
  {
    assert longer[..|kinds|] == kinds;
    assert Select(s, kinds, !b) + [] == Select(s, kinds, !b);
  }

  lemma SameOneMore(kinds: seq<bool>, b: bool, n: nat)
    ensures kinds + Same(b, n + 1) == kinds + Same(b, n) + [b]
  {
  }

  lemma SliceOneMore<T>(x: seq<T>, s: seq<T>, i: nat, n: nat)
    requires i + n < |s|
    ensures x + s[i..i + n] + [s[i + n]] == x + s[i..i + n + 1]
  {
  }

  /** kinds followed by n times b. */
  function Longer(kinds: seq<bool>, b: bool, n: nat): (r: seq<bool>)
    ensures |r| == |kinds| + n
  {
    kinds + Same(b, n)
  }

  lemma {:induction false} SelectLonger<T>(s: seq<T>, kinds: seq<bool>, b: bool, n: nat, longer: seq<bool>)
    requires |kinds| + n <= |s| && longer == Longer(kinds, b, n)
    ensures Select(s, longer, b) == Select(s, kinds, b) + s[|kinds|..|kinds| + n]
    ensures Select(s, longer, !b) == Select(s, kinds, !b)
  {
    if n == 0 {
      assert longer == kinds && s[|kinds|..|kinds|] == [];
    } else {
      var before := Longer(kinds, b, n - 1);
      SelectLonger(s, kinds, b, n - 1, before);
      SameOneMore(kinds, b, n - 1);
      SelectOne(s, before, longer, b);
      SliceOneMore(Select(s, kinds, b), s, |kinds|, n - 1);
    }
  }

  lemma SelectMore<T>(s: seq<T>, kinds: seq<bool>, b: bool, n: nat)
    requires |kinds| + n <= |s|
    ensures Select(s, kinds + Same(b, n), b) == Select(s, kinds, b) + s[|kinds|..|kinds| + n]
    ensures Select(s, kinds + Same(b, n), !b) == Select(s, kinds, !b)
  {
    SelectLonger(s, kinds, b, n, kinds + Same(b, n));
  }

  /** The last one goes to one of the parts. */
  lemma SelectLast<T>(s: seq<T>, kinds: seq<bool>, n: nat, a: seq<T>, b: seq<T>)
    requires |kinds| <= |s| && n + 1 == |kinds|
    requires a == Select(s, kinds[..n], true) && b == Select(s, kinds[..n], false)
    ensures var both := Select(s, kinds, true) + Select(s, kinds, false);
      (both == a + [s[n]] + b || both == a + (b + [s[n]])) && s[..|kinds|] == s[..n] + [s[n]]
  {
    assert a + [] == a && b + [] == b;
  }

  /** One is a permutation of the other. */
  ghost predicate Permuted<T(!new)>(x: seq<T>, y: seq<T>) {
    forall u: nat :: PermutedAt(u, x, y)
  }

  ghost predicate PermutedAt<T(!new)>(unused: nat, x: seq<T>, y: seq<T>) {
    multiset(x) == multiset(y)
  }

  lemma PermutedOn<T(!new)>(a: seq<T>, b: seq<T>, all: seq<T>, x: T, c: seq<T>, more: seq<T>)
    requires Permuted(a + b, all) && (c == a + [x] + b || c == a + (b + [x])) && more == all + [x]
    ensures Permuted(c, more)
  {
    assert PermutedAt(0, a + b, all);
    forall u: nat ensures PermutedAt(u, c, more) { }
  }

  lemma {:induction false} SelectedArePermuted<T(!new)>(s: seq<T>, kinds: seq<bool>)
    requires |kinds| <= |s|
    ensures Permuted(Select(s, kinds, true) + Select(s, kinds, false), s[..|kinds|])
  {
    var parts, all := Select(s, kinds, true) + Select(s, kinds, false), s[..|kinds|];
    if |kinds| == 0 {
      forall u: nat ensures PermutedAt(u, parts, all) { }
    } else {
      var n := |kinds| - 1;
      var a, b := Select(s, kinds[..n], true), Select(s, kinds[..n], false);
      SelectLast(s, kinds, n, a, b);
      SelectedArePermuted(s, kinds[..n]);
      PermutedOn(a, b, s[..n], s[n], parts, all);
    }
  }

  /** The two parts together are a permutation of the arguments. */
  lemma SelectPermutes<T(!new)>(s: seq<T>, kinds: seq<bool>)
    requires |kinds| <= |s|
    ensures multiset(Select(s, kinds, true) + Select(s, kinds, false)) == multiset(s[..|kinds|])
  {
    SelectedArePermuted(s, kinds);
    assert PermutedAt(0, Select(s, kinds, true) + Select(s, kinds, false), s[..|kinds|]);
  }

  /**
   * While the scan is at index i: the options passed stand in a[..f] and a[l..i], the non-options in
   * a[f..l], and the rest is untouched.
   */
  ghost predicate Arranged(a: seq<string>, argv: seq<string>, kinds: seq<bool>, f: nat, l: nat, i: nat) {
    && |a| == |argv| && f <= l <= i <= |a| && |kinds| == i
    && forall u: nat :: ArrangedAt(u, a, argv, kinds, f, l, i)
  }

  /** (The unused parameter keeps the slices out of proofs that do not need them.) */
  ghost predicate ArrangedAt(unused: nat, a: seq<string>, argv: seq<string>, kinds: seq<bool>, f: nat, l: nat, i: nat) {
    && |a| == |argv| && f <= l <= i <= |a| && |kinds| == i
    && a[..f] + a[l..i] == Select(argv, kinds, true) && a[f..l] == Select(argv, kinds, false) && a[i..] == argv[i..]
  }

  /** The blocks [f, l) and [l, i) exchanged. */
  function Exchanged<T>(a: seq<T>, f: nat, l: nat, i: nat): seq<T>
    requires f <= l <= i <= |a|
  {
    a[..f] + a[l..i] + a[f..l] + a[i..]
  }

  lemma ExchangedAt<T>(a: seq<T>, f: nat, l: nat, i: nat, r: seq<T>)
    requires f <= l <= i <= |a| && r == Exchanged(a, f, l, i)
    ensures |r| == |a|
    ensures forall k {:trigger r[k]} | 0 <= k < |a| ::
              r[k] == if f <= k < f + (i - l) then a[l + k - f] else if f + (i - l) <= k < i then a[k - (i - l)]
                  else a[k]
  {
  }

  lemma ExchangedArranged(a: seq<string>, argv: seq<string>, kinds: seq<bool>, f: nat, l: nat, i: nat)
    requires Arranged(a, argv, kinds, f, l, i)
    ensures Arranged(Exchanged(a, f, l, i), argv, kinds, f + (i - l), i, i)
  {
    assert ArrangedAt(0, a, argv, kinds, f, l, i);
    var e := Exchanged(a, f, l, i);
    assert e[..f + (i - l)] == a[..f] + a[l..i];
    assert e[f + (i - l)..i] == a[f..l];
    assert e[i..i] == [] && e[..f + (i - l)] + [] == e[..f + (i - l)];
    assert e[i..] == a[i..];
  }

  lemma StartArranged(a: seq<string>)
    ensures Arranged(a, a, [], 0, 0, 0)
  {
    forall u: nat ensures ArrangedAt(u, a, a, [], 0, 0, 0) { }
  }

  /** Without non-options the options so far are all of a[..i]. */
  lemma NothingSkipped(a: seq<string>, argv: seq<string>, kinds: seq<bool>, f: nat, i: nat)
    requires Arranged(a, argv, kinds, f, f, i)
    ensures Arranged(a, argv, kinds, i, i, i)
  {
    assert ArrangedAt(0, a, argv, kinds, f, f, i);
    assert a[..f] + a[f..i] == a[..i] + a[i..i];
  }

  /** Where two sequences agree from index i on, a slice up to i is continued by the other one's. */
  lemma NextSlice<T>(a: seq<T>, b: seq<T>, l: nat, i: nat, n: nat)
    requires |a| == |b| && l <= i && i + n <= |a| && a[i..] == b[i..]
    ensures a[l..i + n] == a[l..i] + b[i..i + n] && a[i + n..] == b[i + n..]
  {
  }

  lemma SkippedArranged(a: seq<string>, argv: seq<string>, kinds: seq<bool>, f: nat, i: nat, n: nat)
    requires Arranged(a, argv, kinds, f, i, i) && i + n <= |a|
    ensures Arranged(a, argv, kinds + Same(false, n), f, i + n, i + n)
  {
    assert ArrangedAt(0, a, argv, kinds, f, i, i);
    SelectMore(argv, kinds, false, n);
    NextSlice(a, argv, f, i, n);
    assert a[i..i] == a[i + n..i + n] == [];
  }

  lemma TakenArranged(a: seq<string>, argv: seq<string>, kinds: seq<bool>, f: nat, l: nat, i: nat, n: nat)
    requires Arranged(a, argv, kinds, f, l, i) && i + n <= |a|
    ensures Arranged(a, argv, kinds + Same(true, n), f, l, i + n)
  {
    assert ArrangedAt(0, a, argv, kinds, f, l, i);
    SelectMore(argv, kinds, true, n);
    NextSlice(a, argv, l, i, n);
    ConcatAssociates(a[..f], a[l..i], argv[i..i + n]);
  }

  lemma AllArranged(a: seq<string>, argv: seq<string>, kinds: seq<bool>, f: nat)
    requires Arranged(a, argv, kinds, f, |a|, |a|)
    ensures a == Select(argv, kinds, true) + Select(argv, kinds, false) && f == |Select(argv, kinds, true)|
  {
    assert ArrangedAt(0, a, argv, kinds, f, |a|, |a|);
    assert a[|a|..|a|] == [] && a[..f] + [] == a[..f];
    assert a[f..|a|] == a[f..];
    assert a == a[..f] + a[f..];
  }

  lemma CutInFour<T>(a: seq<T>, f: nat, l: nat, i: nat)
    requires f <= l <= i <= |a|
    ensures a == a[..f] + a[f..l] + a[l..i] + a[i..]
  {
  }

  lemma FourParts<T>(a: seq<T>, w: seq<T>, x: seq<T>, y: seq<T>, z: seq<T>)
    requires a == w + x + y + z
    ensures multiset(a) == multiset(w + y) + multiset(x) + multiset(z)
  {
  }

  lemma TwoParts<T>(a: seq<T>, i: nat)
    requires i <= |a|
    ensures multiset(a) == multiset(a[..i]) + multiset(a[i..])
  {
    assert a == a[..i] + a[i..];
  }

  /** However far the scan has come, the arguments have only been permuted. */
  lemma ArrangedPermutes(a: seq<string>, argv: seq<string>, kinds: seq<bool>, f: nat, l: nat, i: nat)
    requires Arranged(a, argv, kinds, f, l, i)
    ensures multiset(a) == multiset(argv)
  {
    assert ArrangedAt(0, a, argv, kinds, f, l, i);
    SelectPermutes(argv, kinds);
    CutInFour(a, f, l, i);
    FourParts(a, a[..f], a[f..l], a[l..i], a[i..]);
    TwoParts(argv, i);
  }

  // ---- Exchanging two blocks in place ----

  /** now is was with the n elements at x and those at y swapped. */
  ghost predicate Swapped<T>(was: seq<T>, now: seq<T>, x: nat, y: nat, n: nat) {
    && |now| == |was| && x + n <= y && y + n <= |was|
    && forall k {:trigger now[k]} | 0 <= k < |was| ::
         now[k] == if x <= k < x + n then was[y + k - x] else if y <= k < y + n then was[x + k - y] else was[k]
  }

  lemma SwappedOneMore<T>(was: seq<T>, now: seq<T>, next: seq<T>, x: nat, y: nat, n: nat)
    requires Swapped(was, now, x, y, n) && x + n < y && y + n < |was|
    requires next == now[x + n := now[y + n]][y + n := now[x + n]]
    ensures Swapped(was, next, x, y, n + 1)
  {
  }

  method SwapBlocks(a: array<string>, x: nat, y: nat, len: nat)
    requires x + len <= y && y + len <= a.Length
    modifies a
    ensures Swapped(old(a[..]), a[..], x, y, len)
  {
    var i := 0;
    while i < len
      invariant 0 <= i <= len && Swapped(old(a[..]), a[..], x, y, i)
    {
      ghost var now := a[..];
      a[x + i], a[y + i] := a[y + i], a[x + i];
      SwappedOneMore(old(a[..]), now, a[..], x, y, i);
      i := i + 1;
    }
  }

  /** The shorter lower block, once swapped to the top, is in its place. */
  lemma BottomShorter<T>(a: seq<T>, b: seq<T>, bottom: nat, middle: nat, top: nat)
    requires bottom <= middle <= top <= |a| && top - middle > middle - bottom
    requires Swapped(a, b, bottom, top - (middle - bottom), middle - bottom)
    ensures Exchanged(b, bottom, middle, top - (middle - bottom)) == Exchanged(a, bottom, middle, top)
  {
    var e, g := Exchanged(b, bottom, middle, top - (middle - bottom)), Exchanged(a, bottom, middle, top);
    ExchangedAt(b, bottom, middle, top - (middle - bottom), e);
    ExchangedAt(a, bottom, middle, top, g);
    assert forall k | 0 <= k < |a| :: e[k] == g[k];
  }

  /** The shorter upper block, once swapped to the bottom, is in its place. */
  lemma TopShorter<T>(a: seq<T>, b: seq<T>, bottom: nat, middle: nat, top: nat)
    requires bottom <= middle <= top <= |a| && top - middle <= middle - bottom
    requires Swapped(a, b, bottom, middle, top - middle)
    ensures Exchanged(b, bottom + (top - middle), middle, top) == Exchanged(a, bottom, middle, top)
  {
    var e, g := Exchanged(b, bottom + (top - middle), middle, top), Exchanged(a, bottom, middle, top);
    ExchangedAt(b, bottom + (top - middle), middle, top, e);
    ExchangedAt(a, bottom, middle, top, g);
    assert forall k | 0 <= k < |a| :: e[k] == g[k];
  }

  method SwapBottom(argv: array<string>, bottom: nat, middle: nat, top: nat) returns (top': nat)
    requires bottom < middle < top <= argv.Length && top - middle > middle - bottom
    modifies argv
    ensures middle <= top' < top
    ensures Exchanged(argv[..], bottom, middle, top') == old(Exchanged(argv[..], bottom, middle, top))
  {
    ghost var a := argv[..];
    var len := middle - bottom;
    SwapBlocks(argv, bottom, top - len, len);
    BottomShorter(a, argv[..], bottom, middle, top);
    top' := top - len;
  }

  method SwapTop(argv: array<string>, bottom: nat, middle: nat, top: nat) returns (bottom': nat)
    requires bottom < middle < top <= argv.Length && top - middle <= middle - bottom
    modifies argv
    ensures bottom < bottom' <= middle
    ensures Exchanged(argv[..], bottom', middle, top) == old(Exchanged(argv[..], bottom, middle, top))
  {
    ghost var a := argv[..];
    var len := top - middle;
    SwapBlocks(argv, bottom, middle, len);
    TopShorter(a, argv[..], bottom, middle, top);
    bottom' := bottom + len;
  }

  /** Exchanges [first, last) and [last, optind) in place. */
  method Exchange(argv: array<string>, first: nat, last: nat, optind: nat)
    requires first <= last <= optind <= argv.Length
    modifies argv
    ensures argv[..] == Exchanged(old(argv[..]), first, last, optind)
  {
    var bottom, middle, top := first, last, optind;
    ghost var goal := Exchanged(argv[..], first, last, optind);
    while top > middle > bottom
      invariant 0 <= bottom <= middle <= top <= optind
      invariant Exchanged(argv[..], bottom, middle, top) == goal
      decreases top - bottom
    {
      if top - middle > middle - bottom {
        top := SwapBottom(argv, bottom, middle, top);
      } else {
        bottom := SwapTop(argv, bottom, middle, top);
      }
    }
    NothingToExchange(argv[..], bottom, middle, top);
  }

  lemma NothingToExchange<T>(a: seq<T>, bottom: nat, middle: nat, top: nat)
    requires bottom <= middle <= top <= |a| && (bottom == middle || middle == top)
    ensures Exchanged(a, bottom, middle, top) == a
  {
  }

  // ---- The parser ----

  function Min(a: nat, b: nat): nat { if a < b then a else b }

  class Getopt {
    const cfg: Config
    const argv: array<string>
    var optarg: Option<string>
    var optind: nat
    var optopt: int
    var nextchar: string
    var longind: int
    var endparse: bool
    var firstNonopt: nat
    var lastNonopt: nat

    /** The arguments as given, and the scan of them. */
    ghost const original: seq<string>
    ghost var scan: Scan

    function Fields(): Parse
      reads this
    {
      Parse(optind, nextchar, optarg, optopt, longind, endparse)
    }

    /** How argv stands when the scan has passed the given kinds, with the two records cut down to optind. */
    ghost predicate Settled(kinds: seq<bool>, f: nat, l: nat)
      reads this, argv
    {
      && |original| == argv.Length && f <= l <= optind <= argv.Length
      && if cfg.ordering.Permute? then Arranged(argv[..], original, kinds, f, l, optind)
          else argv[..] == original && f == l
    }

    ghost predicate Valid()
      reads this, argv
    {
      && |original| == argv.Length && ScanOk(cfg, original, scan) && !scan.done && scan.p == Fields()
      && (if endparse then !cfg.ordering.Permute? && argv[..] == original
          else Settled(scan.kinds, Min(firstNonopt, optind), Min(lastNonopt, optind)))
      && (!endparse && nextchar != "" ==> firstNonopt <= optind && lastNonopt <= optind)
    }

    constructor (argv: array<string>, optstring: string, longOptions: Option<seq<LongOpt>>, longOnly: bool, posix: bool)
      requires longOptions.None? ==> forall k | 0 <= k < |optstring| - 1 ::
               !(optstring[k] == 'W' && optstring[k + 1] == ';')
      ensures Valid() && this.argv == argv && original == argv[..] && scan.kinds == [] && optind == 0
      ensures cfg.ordering == if StartsWith(optstring, "-") then ReturnInOrder
                              else if StartsWith(optstring, "+") || posix then RequireOrder else Permute
      ensures cfg.optstring == if optstring == "" then " "
                               else if |optstring| > 1 && optstring[0] in "-+" then optstring[1..] else optstring
      ensures cfg.longOptions == longOptions && cfg.longOnly == longOnly && cfg.posix == posix
      ensures scan.p == Parse(0, "", None, '?' as int, 0, false)
    {
      var chars := if optstring == "" then " " else optstring;
      var ordering := Permute;
      if chars[0] == '-' {
        ordering := ReturnInOrder;
        if |chars| > 1 { chars := chars[1..]; }
      } else if chars[0] == '+' {
        ordering := RequireOrder;
        if |chars| > 1 { chars := chars[1..]; }
      } else if posix {
        ordering := RequireOrder;
      }
      cfg := Config(chars, longOptions, longOnly, posix, ordering);
      this.argv := argv;
      optarg, optind, optopt, nextchar, longind, endparse := None, 0, '?' as int, "", 0, false;
      firstNonopt, lastNonopt := 1, 1;
      original := argv[..];
      scan := Scan(Parse(0, "", None, '?' as int, 0, false), [], false);
      new;
      StartArranged(argv[..]);
    }

    /** Exchanges the skipped non-options with the options processed after them. */
    method ExchangeNonoptions(ghost kinds: seq<bool>)
      requires Arranged(argv[..], original, kinds, firstNonopt, lastNonopt, optind)
      modifies this`firstNonopt, this`lastNonopt, argv
      ensures firstNonopt <= lastNonopt == optind && Arranged(argv[..], original, kinds, firstNonopt, optind, optind)
    {
      ghost var goal := Exchanged(argv[..], firstNonopt, lastNonopt, optind);
      ExchangedArranged(argv[..], original, kinds, firstNonopt, lastNonopt, optind);
      Exchange(argv, firstNonopt, lastNonopt, optind);
      assert argv[..] == goal;
      firstNonopt := firstNonopt + (optind - lastNonopt);
      lastNonopt := optind;
    }

    /** Brings the options together at the front and skips the non-options that follow. */
    method PermuteArgs(ghost kinds: seq<bool>)
      requires Arranged(argv[..], original, kinds, firstNonopt, lastNonopt, optind)
      modifies this`firstNonopt, this`lastNonopt, this`optind, argv
      ensures old(optind) <= optind == lastNonopt && optind == Skip(original, old(optind))
      ensures Arranged(argv[..], original, kinds + Same(false, optind - old(optind)), firstNonopt, optind, optind)
    {
      if firstNonopt != lastNonopt && lastNonopt != optind {
        ExchangeNonoptions(kinds);
      } else if lastNonopt != optind {
        NothingSkipped(argv[..], original, kinds, firstNonopt, optind);
        firstNonopt := optind;
      }
      ghost var i, f := optind, firstNonopt;
      assert argv[i..] == original[i..] by { assert ArrangedAt(0, argv[..], original, kinds, f, i, i); }
      SkipArgs();
      SkippedArranged(argv[..], original, kinds, f, i, optind - i);
      lastNonopt := optind;
    }

    method SkipArgs()
      requires optind <= argv.Length == |original| && argv[optind..] == original[optind..]
      modifies this`optind
      ensures old(optind) <= optind <= argv.Length && optind == Skip(original, old(optind))
    {
      while optind < argv.Length && NonOption(argv[optind])
        invariant old(optind) <= optind <= argv.Length && Skip(original, optind) == Skip(original, old(optind))
      {
        assert argv[optind] == original[old(optind)..][optind - old(optind)];
        optind := optind + 1;
      }
      if optind < argv.Length { assert argv[optind] == original[old(optind)..][optind - old(optind)]; }
    }

    /** "--" ends the options: it becomes one itself, and all that follows is skipped. */
    method EndOptions(ghost kinds: seq<bool>)
      requires firstNonopt <= lastNonopt <= optind < argv.Length == |original|
      requires cfg.ordering.Permute? ==>
                 lastNonopt == optind && Arranged(argv[..], original, kinds, firstNonopt, optind, optind)
      requires !cfg.ordering.Permute? ==> firstNonopt == lastNonopt
      modifies this`firstNonopt, this`lastNonopt, this`optind, argv
      ensures optind == lastNonopt == argv.Length
      ensures cfg.ordering.Permute? ==>
                firstNonopt <= optind &&
                Arranged(argv[..], original, kinds + [true] + Same(false, argv.Length - old(optind) - 1), firstNonopt,
                         optind, optind)
      ensures !cfg.ordering.Permute? ==> argv[..] == old(argv[..]) && firstNonopt == old(optind) + 1
    {
      ghost var i := optind;
      optind := optind + 1;
      ghost var more := kinds + [true];
      assert [true] == Same(true, 1);
      if cfg.ordering.Permute? { TakenArranged(argv[..], original, kinds, firstNonopt, lastNonopt, i, 1); }
      if firstNonopt != lastNonopt && lastNonopt != optind {
        ExchangeNonoptions(more);
      } else if firstNonopt == lastNonopt {
        if cfg.ordering.Permute? { NothingSkipped(argv[..], original, more, firstNonopt, optind); }
        firstNonopt := optind;
      }
      if cfg.ordering.Permute? { SkippedArranged(argv[..], original, more, firstNonopt, optind, argv.Length - optind); }
      lastNonopt := argv.Length;
      optind := argv.Length;
    }

    /** Looks nextchar up among the long options; handled says whether it is one. */
    method CheckLongOption(opts: seq<LongOpt>, ghost a: seq<string>) returns (handled: bool, c: int)
      requires a == argv[..] && optind < argv.Length
      modifies this`longind, this`nextchar, this`optopt, this`optind, this`optarg
      ensures Checks(cfg, opts, a, old(Fields()), handled, c, Fields())
    {
      ghost var p := Fields();
      longind := -1;
      var nameend := NameEnd(nextchar);
      var m := FindLong(opts, nextchar[..nameend]);
      match m {
        case Nothing =>
          handled, c := false, 0;
        case Ambiguous(k) =>
          longind, nextchar, optopt, optind := k, "", 0, optind + 1;
          handled, c := true, '?' as int;
        case Found(k) =>
          longind, optind := k, optind + 1;
          assert Fields() == p.(optind := p.optind + 1, longind := k);
          c := UseLongOption(opts[k], nameend, a);
          handled := true;
      }
      ChecksIs(cfg, opts, a, p, handled, c, Fields());
    }

    /** Takes the long option's argument, if it has one. */
    method UseLongOption(pfound: LongOpt, nameend: nat, ghost a: seq<string>) returns (c: int)
      requires a == argv[..] && optind <= argv.Length && nameend <= |nextchar|
      modifies this`nextchar, this`optopt, this`optind, this`optarg
      ensures (c, Fields()) == UseLong(cfg, pfound, a, old(Fields()), nameend)
    {
      assert |nextchar[nameend..]| <= 1 ==> nextchar[nameend..][|nextchar[nameend..]|..] == "";
      if nameend != |nextchar| {
        if pfound.hasArg != NoArgument {
          optarg := if |nextchar[nameend..]| > 1 then Some(nextchar[nameend + 1..]) else Some("");
        } else {
          nextchar := "";
          optopt := pfound.val;
          return '?' as int;
        }
      } else if pfound.hasArg == RequiredArgument {
        if optind < argv.Length {
          optarg := Some(argv[optind]);
          optind := optind + 1;
        } else {
          nextchar := "";
          optopt := pfound.val;
          return cfg.Missing();
        }
      }
      nextchar := "";
      c := if pfound.flagged then 0 else pfound.val;
    }

    /** Handles the short option that stands first in nextchar. */
    method DecodeShort(ghost a: seq<string>) returns (c: int)
      requires a == argv[..] && cfg.Valid() && optind < argv.Length && nextchar != ""
      modifies this`longind, this`nextchar, this`optopt, this`optind, this`optarg, this`endparse
      modifies this`firstNonopt, this`lastNonopt
      ensures DecodesShort(cfg, a, old(Fields()), c, Fields())
      ensures !endparse ==> firstNonopt == old(firstNonopt) && lastNonopt == old(lastNonopt)
    {
      ghost var p := Fields();
      var ch := nextchar[0];
      c := ch as int;
      nextchar := nextchar[1..];
      if nextchar == "" { optind := optind + 1; }
      assert Fields() == Taken(p);
      var at := IndexOf(cfg.optstring, ch);
      if at == -1 || ch == ':' {
        optopt := c;
        c := '?' as int;
        UnknownShort(cfg, a, p, c, Fields());
        return c;
      }
      if ch == 'W' && Described(cfg, at, 1, ';') {
        c := DecodeW(a);
      } else if Described(cfg, at, 1, ':') {
        if Described(cfg, at, 2, ':') {
          DecodeOptional();
        } else {
          c := DecodeArgument(c, a);
        }
      }
      KnownShort(cfg, a, p, at, c, Fields());
    }

    /** The argument a short option may have: the rest of the element, if there is any. */
    method DecodeOptional()
      modifies this`nextchar, this`optind, this`optarg
      ensures Fields() == ShortOptional(old(Fields()))
    {
      if nextchar != "" {
        optarg := Some(nextchar);
        optind := optind + 1;
      } else {
        optarg := None;
      }
      nextchar := "";
    }

    /** "-W name": the rest of the element, or the next argument, is a long option. */
    method DecodeW(ghost a: seq<string>) returns (c: int)
      requires a == argv[..] && cfg.Valid() && optind <= argv.Length && (nextchar != "" ==> optind < argv.Length)
      modifies this`longind, this`nextchar, this`optopt, this`optind, this`optarg
      ensures DecodesW(cfg, a, old(Fields()), c, Fields())
    {
      ghost var p := Fields();
      if nextchar != "" {
        optarg := Some(nextchar);
      } else if optind == argv.Length {
        optopt := 'W' as int;
        c := cfg.Missing();
        NothingAfterW(cfg, a, p, c, Fields());
        return c;
      } else {
        nextchar := argv[optind];
        optarg := Some(argv[optind]);
      }
      ghost var name := nextchar;
      assert Fields() == p.(nextchar := name, optarg := Some(name));
      var handled;
      handled, c := CheckLongOption(if cfg.longOptions.Some? then cfg.longOptions.value else [], a);
      ghost var ret, q := c, Fields();
      if !handled {
        nextchar := "";
        optind := optind + 1;
        c := 'W' as int;
      }
      NameAfterW(cfg, a, p, name, handled, ret, q, c, Fields());
    }

    /** The argument short option c requires. */
    method DecodeArgument(opt: int, ghost a: seq<string>) returns (c: int)
      requires a == argv[..] && optind <= argv.Length
      modifies this`nextchar, this`optopt, this`optind, this`optarg, this`endparse, this`firstNonopt, this`lastNonopt
      ensures (c, Fields()) == ShortArgument(cfg, a, old(Fields()), opt)
      ensures !endparse ==> firstNonopt == old(firstNonopt) && lastNonopt == old(lastNonopt)
    {
      c := opt;
      if nextchar != "" {
        optarg := Some(nextchar);
        optind := optind + 1;
      } else if optind == argv.Length {
        optopt := c;
        return cfg.Missing();
      } else {
        optarg := Some(argv[optind]);
        optind := optind + 1;
        if cfg.posix && optarg == Some("--") {
          if optind == argv.Length {
            optopt := c;
            return cfg.Missing();
          }
          optarg := Some(argv[optind]);
          optind := optind + 1;
          firstNonopt := optind;
          lastNonopt := argv.Length;
          endparse := true;
        }
      }
      nextchar := "";
    }

    /** Decodes the current option element. */
    method DecodeOption(ghost a: seq<string>) returns (c: int)
      requires a == argv[..] && cfg.Valid() && optind < argv.Length && |argv[optind]| >= 2 && nextchar != ""
      modifies this`longind, this`nextchar, this`optopt, this`optind, this`optarg, this`endparse
      modifies this`firstNonopt, this`lastNonopt
      ensures Decodes(cfg, a, old(Fields()), c, Fields())
      ensures !endparse ==> firstNonopt == old(firstNonopt) && lastNonopt == old(lastNonopt)
    {
      ghost var p := Fields();
      var arg := argv[optind];
      if !cfg.TriesLong(arg) {
        c := DecodeShort(a);
        ShortOnly(cfg, a, p, c, Fields());
        return c;
      }
      var handled;
      handled, c := CheckLongOption(cfg.longOptions.value, a);
      ghost var ret, q := c, Fields();
      if handled {
        LongDecodes(cfg, a, p, c, q);
        return c;
      }
      NotLong(cfg, cfg.longOptions.value, a, p, ret, q);
      if !TriesShort(cfg, arg, nextchar) {
        nextchar := "";
        optind := optind + 1;
        optopt := 0;
        c := '?' as int;
        UnknownLong(cfg, a, p, ret, q, c, Fields());
        return c;
      }
      c := DecodeShort(a);
      ShortAfterLong(cfg, a, p, ret, q, c, Fields());
    }

    /** Decodes the option found at s by a call from start; r is the scan after it. */
    method TakeOption(ghost start: Scan, ghost s: Scan) returns (c: int, ghost r: Scan)
      requires Continues(cfg, original, start, s)
      requires ScanOk(cfg, original, s) && s.p == Fields() && nextchar != "" && !endparse
      requires Settled(s.kinds, firstNonopt, lastNonopt)
      modifies this`longind, this`nextchar, this`optopt, this`optind, this`optarg, this`endparse
      modifies this`firstNonopt, this`lastNonopt
      ensures Calls(cfg, original, start, c, r) && !r.done && r.p == Fields() && Went(r.kinds)
    {
      ghost var f, l, i, a := firstNonopt, lastNonopt, optind, argv[..];
      UntouchedRest(s.kinds);
      assert a[i] == argv[i] == original[i] by { assert SameFromAt(0, original, a, i); }
      c := DecodeOption(a);
      r := TakesDecoded(cfg, original, a, s, c, Fields());
      CallTakes(cfg, original, start, s, c, r);
      assert argv[..] == a;
      TakenWent(s.kinds, f, l, i);
    }

    /** What has been taken since index i is of the option kind; the records have stayed or do not matter. */
    lemma TakenWent(kinds: seq<bool>, f: nat, l: nat, i: nat)
      requires |original| == argv.Length && f <= l <= i <= optind <= argv.Length && |kinds| == i
      requires if cfg.ordering.Permute? then Arranged(argv[..], original, kinds, f, l, i)
               else argv[..] == original && f == l
      requires if endparse then !cfg.ordering.Permute? else firstNonopt == f && lastNonopt == l
      ensures Went(kinds + Same(true, optind - i))
    {
      if cfg.ordering.Permute? { TakenArranged(argv[..], original, kinds, f, l, i, optind - i); }
    }

    lemma UntouchedRest(kinds: seq<bool>)
      requires Settled(kinds, firstNonopt, lastNonopt)
      ensures SameFrom(original, argv[..], optind)
    {
      if cfg.ordering.Permute? {
        assert ArrangedAt(0, argv[..], original, kinds, firstNonopt, lastNonopt, optind);
        assert forall k | optind <= k < argv.Length :: argv[k] == argv[optind..][k - optind] == original[k];
      }
      forall u: nat ensures SameFromAt(u, original, argv[..], optind) { }
    }

    /** What is left to say when the scan has ended. */
    ghost predicate Ended(kinds: seq<bool>, optind': nat)
      reads this, argv
    {
      if cfg.ordering.Permute? then
        && |kinds| == |original| && optind == |Select(original, kinds, true)|
        && argv[..] == Select(original, kinds, true) + Select(original, kinds, false)
      else argv[..] == original && optind == optind'
    }

    /** No element is left, or "--" is the next: the call ends the scan, and optind goes back to the non-options. */
    method FinishScan(ghost s: Scan, ghost kinds: seq<bool>) returns (ghost r: Scan)
      requires Between(cfg, original, s) && |original| == argv.Length
      requires s.p.optind <= optind == NextAt(cfg, original, s.p.optind)
      requires kinds == s.kinds + Same(false, optind - s.p.optind)
      requires Settled(kinds, firstNonopt, lastNonopt) && (cfg.ordering.Permute? ==> lastNonopt == optind)
      requires optind == argv.Length || argv[optind] == original[optind] == "--"
      modifies this`firstNonopt, this`lastNonopt, this`optind, argv
      ensures Calls(cfg, original, s, -1, r) && r.done && Ended(r.kinds, r.p.optind)
    {
      ghost var k, more := optind, kinds;
      if optind != argv.Length {
        EndOptions(kinds);
        more := kinds + [true] + Same(false, argv.Length - k - 1);
        r := Scan(s.p.(optarg := None, optind := k + 1), more, true);
        CallAtDashes(cfg, original, s, k, kinds, r);
      } else {
        r := Scan(s.p.(optarg := None, optind := k), more, true);
        CallAtEnd(cfg, original, s, k, kinds, r);
      }
      if cfg.ordering.Permute? { AllArranged(argv[..], original, more, firstNonopt); }
      if firstNonopt != lastNonopt { optind := firstNonopt; }
    }

    /**
     * Finds the next option element; if there is none, c is what getopt() returns. r is the scan of the
     * arguments as given: at the option found, or after the call.
     */
    method NextElement(ghost s: Scan) returns (found: bool, c: int, ghost r: Scan)
      requires Between(cfg, original, s) && s.p.(optarg := None) == Fields()
      requires Settled(s.kinds, firstNonopt, lastNonopt)
      modifies this`nextchar, this`optind, this`optarg, this`firstNonopt, this`lastNonopt, argv
      ensures |original| == argv.Length
      ensures found ==> ScanOk(cfg, original, r) && Continues(cfg, original, s, r) && nextchar != ""
      ensures !found ==> Calls(cfg, original, s, c, r)
      ensures if r.done then c == -1 && !found && Ended(r.kinds, r.p.optind)
              else r.p == Fields() && Settled(r.kinds, firstNonopt, lastNonopt)
    {
      ghost var start := optind;
      if cfg.ordering.Permute? {
        PermuteArgs(s.kinds);
      }
      ghost var k, kinds := optind, s.kinds + Same(false, optind - start);
      assert s.kinds + [] == s.kinds;
      UntouchedRest(kinds);
      assert SameFromAt(0, original, argv[..], optind);
      if optind == argv.Length || argv[optind] == "--" {
        r := FinishScan(s, kinds);
        return false, -1, r;
      }
      if NonOption(argv[optind]) {
        if cfg.ordering.RequireOrder? {
          r := Scan(s.p.(optarg := None), kinds, true);
          CallAtNonOption(cfg, original, s, k, kinds, -1, r);
          return false, -1, r;
        }
        optarg := Some(argv[optind]);
        optind := optind + 1;
        r := Scan(Fields(), kinds + [true], false);
        CallAtNonOption(cfg, original, s, k, kinds, 1, r);
        return false, 1, r;
      }
      nextchar := Strip(argv[optind]);
      r := Scan(Fields(), kinds, false);
      CallAtOption(cfg, original, s, k, r);
      return true, 0, r;
    }

    /** A call between elements: the records are cut down, and the next element is found and decoded. */
    method ScanOn(ghost s: Scan) returns (c: int, ghost r: Scan)
      requires Between(cfg, original, s) && s.p.(optarg := None) == Fields()
      requires Settled(s.kinds, Min(firstNonopt, optind), Min(lastNonopt, optind))
      modifies this`longind, this`nextchar, this`optopt, this`optind, this`optarg, this`endparse
      modifies this`firstNonopt, this`lastNonopt, argv
      ensures |original| == argv.Length && Calls(cfg, original, s, c, r)
      ensures if r.done then c == -1 && Ended(r.kinds, r.p.optind) else r.p == Fields() && Went(r.kinds)
    {
      CutRecords(s.kinds);
      var found;
      found, c, r := NextElement(s);
      if found {
        c, r := TakeOption(s, r);
      }
    }

    method CutRecords(ghost kinds: seq<bool>)
      requires Settled(kinds, Min(firstNonopt, optind), Min(lastNonopt, optind))
      modifies this`firstNonopt, this`lastNonopt
      ensures Settled(kinds, firstNonopt, lastNonopt)
    {
      if lastNonopt > optind { lastNonopt := optind; }
      if firstNonopt > optind { firstNonopt := optind; }
    }

    /** Where things stand when the scan has not ended. */
    ghost predicate Went(kinds: seq<bool>)
      reads this, argv
    {
      if endparse then !cfg.ordering.Permute? && argv[..] == original else Settled(kinds, firstNonopt, lastNonopt)
    }

    /**
     * The next option, or -1. What is reported is what a scan of the arguments as given reports; when
     * the scan ends in permuting order, the options have been gathered at the front, in order, followed
     * by the non-options, in order, and optind is where the non-options begin.
     */
    method GetOpt() returns (c: int)
      requires Valid()
      modifies this, argv
      ensures (c, scan) == Call(cfg, original, old(scan)) && |original| == argv.Length
      ensures if scan.done then c == -1 && Ended(scan.kinds, scan.p.optind) else Valid()
    {
      ghost var s, r := scan, scan;
      optarg := None;
      if endparse {
        r := Scan(Fields(), s.kinds, true);
        CallAtEndparse(cfg, original, s, r);
        c := -1;
      } else if nextchar == "" {
        c, r := ScanOn(s);
      } else {
        ghost var t := s.(p := Fields());
        CallWithinElement(cfg, original, s, t);
        c, r := TakeOption(s, t);
      }
      scan := r;
      CallsOk(cfg, original, s, c, r);
      if !r.done { StillValid(); }
    }

    /** Cutting the records down to optind again changes nothing. */
    lemma StillValid()
      requires |original| == argv.Length && ScanOk(cfg, original, scan) && !scan.done && scan.p == Fields()
      requires Went(scan.kinds)
      ensures Valid()
    {
    }

    lemma ValidPermutes()
      requires Valid()
      ensures |original| == argv.Length && multiset(argv[..]) == multiset(original)
    {
      if cfg.ordering.Permute? {
        ArrangedPermutes(argv[..], original, scan.kinds, Min(firstNonopt, optind), Min(lastNonopt, optind), optind);
      }
    }

    lemma EndedPermutes(kinds: seq<bool>, optind': nat)
      requires Ended(kinds, optind')
      ensures multiset(argv[..]) == multiset(original)
    {
      if cfg.ordering.Permute? {
        SelectPermutes(original, kinds);
        assert original[..|original|] == original;
      }
    }

    /**
     * The loop around getopt() that its documentation gives: every call up to the first -1. If that is
     * not the end of the scan, what has been passed stands arranged as after any other call, and a
     * further loop would go on from there. Either way the arguments are a permutation of those given.
     */
    method ReadOptions() returns (options: seq<int>)
      requires Valid()
      modifies this, argv
      ensures |original| == argv.Length && (options, scan) == UntilMinusOne(cfg, original, old(scan))
      ensures if scan.done then Ended(scan.kinds, scan.p.optind) else Valid()
      ensures multiset(argv[..]) == multiset(original)
    {
      ghost var start := scan;
      options := [];
      var c := GetOpt();
      CallIs(cfg, original, start, c, scan);
      AlongFirst(cfg, original, start, c, scan);
      while c != -1
        invariant |original| == argv.Length && Along(cfg, original, start, scan, options, c)
        invariant if scan.done then c == -1 && Ended(scan.kinds, scan.p.optind) else Valid()
        decreases if c == -1 then 0 else 1, argv.Length - scan.p.optind, Left(original, scan.p)
      {
        ghost var s, seen, b := scan, options, c;
        CallMoves(cfg, original, s);
        options := options + [c];
        c := GetOpt();
        CallIs(cfg, original, s, c, scan);
        AlongNext(cfg, original, start, s, seen, b, c, scan);
      }
      if scan.done { EndedPermutes(scan.kinds, scan.p.optind); } else { ValidPermutes(); }
    }
  }
}
