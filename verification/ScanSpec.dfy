/** What a scan of a whole argument vector means, read left to right, one element at a time.
    Nothing here resumes, permutes or keeps indices: that is the scanner's business. */
module ScanSpec {
  import opened Wrappers
  import opened OptionTable

  datatype Ordering = RequireOrder | Permute | ReturnInOrder

  /** `shorts` is the option-character string without its leading ordering sign. */
  datatype Config = Config(ordering: Ordering, shorts: string, longs: Option<seq<LongOption>>)

  datatype Problem =
    | AmbiguousName
    | UnknownName
    | ArgumentNotAllowed(index: nat)
    | LongArgumentMissing(index: nat)
    | UnknownChar(c: char)
    | ShortArgumentMissing(c: char)

  datatype Event =
    | ShortOpt(c: char, arg: Option<string>)
    | LongOpt(index: nat, arg: Option<string>)
    | NonOpt(text: string)
    | Error(problem: Problem)

  /** No option syntax: does not start with '-', or is "-" itself. */
  predicate NonOption(a: string) {
    a == "" || a[0] != '-' || a == "-"
  }

  predicate LongSyntax(cfg: Config, a: string)
    requires !NonOption(a)
  {
    cfg.longs.Some? && a[1] == '-'
  }

  /** The events of one option element, and how many elements it takes (itself, perhaps one argument). */
  datatype Element = Element(events: seq<Event>, used: nat)

  function After(e: Event, rest: Element): Element {
    rest.(events := [e] + rest.events)
  }

  /** `text` is a run of option characters; `rest` the elements after the one it stands in. */
  function Cluster(shorts: string, text: string, rest: seq<string>): (e: Element)
    ensures 1 <= e.used <= 1 + |rest|
    ensures e.events == [] <==> text == ""
  {
    if text == "" then Element([], 1)
    else
      var c, tail := text[0], text[1..];
      match KindOf(shorts, c)
      case Invalid => After(Error(UnknownChar(c)), Cluster(shorts, tail, rest))
      case Takes(NoArgument) => After(ShortOpt(c, None), Cluster(shorts, tail, rest))
      case Takes(OptionalArgument) => Element([ShortOpt(c, if tail == "" then None else Some(tail))], 1)
      case Takes(RequiredArgument) =>
        if tail != "" then Element([ShortOpt(c, Some(tail))], 1)
        else if rest == [] then Element([Error(ShortArgumentMissing(c))], 1)
        else Element([ShortOpt(c, Some(rest[0]))], 2)
  }

  /** `text` is what follows "--". */
  function LongElement(longs: seq<LongOption>, text: string, rest: seq<string>): (e: Element)
    ensures 1 <= e.used <= 1 + |rest| && |e.events| == 1
  {
    var n := IndexOf(text, '=');
    match Lookup(longs, text[..n])
    case Unrecognized => Element([Error(UnknownName)], 1)
    case Ambiguous => Element([Error(AmbiguousName)], 1)
    case Found(i) =>
      if n < |text| then
        if longs[i].hasArg.NoArgument? then Element([Error(ArgumentNotAllowed(i))], 1)
        else Element([LongOpt(i, Some(text[n + 1..]))], 1)
      else if longs[i].hasArg.RequiredArgument? then
        if rest == [] then Element([Error(LongArgumentMissing(i))], 1)
        else Element([LongOpt(i, Some(rest[0]))], 2)
      else Element([LongOpt(i, None)], 1)
  }

  function ElementOf(cfg: Config, args: seq<string>): (e: Element)
    requires args != [] && !NonOption(args[0])
    ensures 1 <= e.used <= |args| && e.events != []
  {
    if LongSyntax(cfg, args[0]) then LongElement(cfg.longs.value, args[0][2..], args[1..])
    else Cluster(cfg.shorts, args[0][1..], args[1..])
  }

  /** The events in order; the elements used up by options (with their separate arguments, and a
      terminating "--"); the elements left as operands; whether "--" ended the scan. */
  datatype Scan = Scan(events: seq<Event>, consumed: seq<string>, operands: seq<string>, terminated: bool)

  function ScanAll(cfg: Config, args: seq<string>): Scan
    decreases |args|
  {
    if args == [] then Scan([], [], [], false)
    else if args[0] == "--" then Scan([], args[..1], args[1..], true)
    else if !NonOption(args[0]) then Joined(cfg, ElementOf(cfg, args), args)
    else
      match cfg.ordering
      case RequireOrder => Scan([], [], args, false)
      case Permute =>
        var r := ScanAll(cfg, args[1..]);
        r.(operands := args[..1] + r.operands)
      case ReturnInOrder =>
        var r := ScanAll(cfg, args[1..]);
        r.(events := [NonOpt(args[0])] + r.events, consumed := args[..1] + r.consumed)
  }

  /** Element `e` at the head of `args`, then the scan of what it leaves. */
  function Joined(cfg: Config, e: Element, args: seq<string>): Scan
    requires 1 <= e.used <= |args|
    decreases |args|, 0
  {
    var r := ScanAll(cfg, args[e.used..]);
    r.(events := e.events + r.events, consumed := args[..e.used] + r.consumed)
  }

  // ----- what a call hands back besides the event: the C return value and the globals

  predicate Missing(e: Event) {
    e.Error? && (e.problem.LongArgumentMissing? || e.problem.ShortArgumentMissing?)
  }

  function Arg(e: Event): Option<string> {
    match e
    case ShortOpt(_, arg) => arg
    case LongOpt(_, arg) => arg
    case NonOpt(text) => Some(text)
    case Error(_) => None
  }

  /** Event `e` names only options of the tables, with an argument exactly when its option takes one. */
  predicate WellFormed(cfg: Config, e: Event) {
    match e
    case ShortOpt(c, arg) =>
      var k := KindOf(cfg.shorts, c);
      k.Takes? && (k.arg.RequiredArgument? ==> arg.Some?) && (k.arg.NoArgument? ==> arg.None?)
    case LongOpt(i, arg) =>
      cfg.longs.Some? && i < |cfg.longs.value| &&
      (cfg.longs.value[i].hasArg.RequiredArgument? ==> arg.Some?) &&
      (cfg.longs.value[i].hasArg.NoArgument? ==> arg.None?)
    case NonOpt(text) => cfg.ordering.ReturnInOrder? && NonOption(text)
    case Error(p) =>
      match p
      case ArgumentNotAllowed(i) =>
        cfg.longs.Some? && i < |cfg.longs.value| && cfg.longs.value[i].hasArg.NoArgument?
      case LongArgumentMissing(i) =>
        cfg.longs.Some? && i < |cfg.longs.value| && cfg.longs.value[i].hasArg.RequiredArgument?
      case UnknownChar(c) => KindOf(cfg.shorts, c).Invalid?
      case ShortArgumentMissing(c) => KindOf(cfg.shorts, c) == Takes(RequiredArgument)
      case _ => cfg.longs.Some?
  }

  /** The integer the call returns: an option's character or `val` (0 if the option has a flag),
      1 for an operand, and '?' or ':' for an error. */
  function ReturnCode(cfg: Config, e: Event): int
    requires WellFormed(cfg, e)
  {
    match e
    case ShortOpt(c, _) => c as int
    case LongOpt(i, _) => if cfg.longs.value[i].flag.Some? then 0 else cfg.longs.value[i].val
    case NonOpt(_) => 1
    case Error(_) => if Missing(e) && ColonAt(cfg.shorts, 0) then ':' as int else '?' as int
  }

  /** The new value of `optopt`, which only errors change. */
  function NewOptopt(cfg: Config, e: Event, before: int): int
    requires WellFormed(cfg, e)
  {
    if !e.Error? then before
    else
      match e.problem
      case AmbiguousName => 0
      case UnknownName => 0
      case ArgumentNotAllowed(i) => cfg.longs.value[i].val
      case LongArgumentMissing(i) => cfg.longs.value[i].val
      case UnknownChar(c) => c as int
      case ShortArgumentMissing(c) => c as int
  }

  /** The flag cells after the event: a found long option with a flag stores its `val` there. */
  function NewFlags(cfg: Config, e: Event, before: map<int, int>): map<int, int>
    requires WellFormed(cfg, e)
  {
    if e.LongOpt? && cfg.longs.value[e.index].flag.Some?
    then before[cfg.longs.value[e.index].flag.value := cfg.longs.value[e.index].val]
    else before
  }

  /** The new value of `*longind`, which only a found long option changes. */
  function NewLongind(e: Event, before: nat): nat {
    if e.LongOpt? then e.index else before
  }
}
