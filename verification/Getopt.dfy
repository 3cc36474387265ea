/** What a command line means: the options with their arguments, and the other arguments. */
module GetoptSpec {
  import opened Options

  datatype Kind = Unknown | Plain | Required | Optional

  /** The position of c in the option string, or its length. */
  function IndexOf(optstring: string, c: char): (k: nat)
    ensures k <= |optstring| && (k < |optstring| ==> optstring[k] == c)
    ensures forall j | 0 <= j < k :: optstring[j] != c
  {
    if optstring == "" || optstring[0] == c then 0 else 1 + IndexOf(optstring[1..], c)
  }

  function CharAt(s: string, k: nat): char {
    if k < |s| then s[k] else '\0'
  }

  function KindOf(optstring: string, c: char): Kind {
    var k := IndexOf(optstring, c);
    if k == |optstring| || c == ':' then Unknown
    else if CharAt(optstring, k + 1) == ':' then (if CharAt(optstring, k + 2) == ':' then Optional else Required)
    else Plain
  }

  /** One value returned by getopt, with the argument it points to. */
  datatype Event = Event(code: char, arg: Option<string>)

  /** The code for a missing argument. */
  function Missing(optstring: string): char {
    if CharAt(optstring, 0) == ':' then ':' else '?'
  }

  datatype Cluster = Cluster(events: seq<Event>, taken: nat)

  /** The options of one element's remaining characters; `taken` of the following elements serve as argument. */
  function ParseCluster(optstring: string, chars: string, rest: seq<string>): (c: Cluster)
    requires chars != ""
    ensures c.taken <= |rest| && c.taken <= 1
  {
    var c, tail := chars[0], chars[1..];
    match KindOf(optstring, c)
    case Unknown | Plain =>
      var e := Event(if KindOf(optstring, c) == Plain then c else '?', None);
      if tail == "" then Cluster([e], 0)
      else var r := ParseCluster(optstring, tail, rest); Cluster([e] + r.events, r.taken)
    case Optional => Cluster([Event(c, if tail != "" then Some(tail) else None)], 0)
    case Required =>
      if tail != "" then Cluster([Event(c, Some(tail))], 0)
      else if rest == [] then Cluster([Event(Missing(optstring), None)], 0)
      else Cluster([Event(c, Some(rest[0]))], 1)
  }

  predicate IsNonOption(e: string) {
    |e| < 2 || e[0] != '-'
  }

  /** A parsed command line; `opts` holds the option elements and their arguments, and "--" if present. */
  datatype Parsed = Parsed(events: seq<Event>, opts: seq<string>, nonopts: seq<string>)

  function Join(events: seq<Event>, opts: seq<string>, nonopts: seq<string>, p: Parsed): Parsed {
    Parsed(events + p.events, opts + p.opts, nonopts + p.nonopts)
  }

  /** The meaning of a command line (without the program name), read once from left to right. */
  function Parse(optstring: string, args: seq<string>): Parsed
    decreases |args|
  {
    if args == [] then Parsed([], [], [])
    else if IsNonOption(args[0]) then Join([], [], [args[0]], Parse(optstring, args[1..]))
    else if args[0] == "--" then Parsed([], [args[0]], args[1..])
    else Rest(optstring, args[0][1..], args)
  }

  /** The rest of the line when some characters of its first element are still to be read. */
  function Rest(optstring: string, chars: string, args: seq<string>): Parsed
    requires args != [] && chars != ""
    decreases |args|, 0
  {
    var c := ParseCluster(optstring, chars, args[1..]);
    Join(c.events, args[..1 + c.taken], [], Parse(optstring, args[1 + c.taken..]))
  }

  /** An option string of short options in the default mode: no mode prefix and no "W;". */
  predicate ShortOptions(optstring: string) {
    CharAt(optstring, 0) != '-' && CharAt(optstring, 0) != '+' && CharAt(optstring, IndexOf(optstring, 'W') + 1) != ';'
  }

  /** Sorting a line loses and duplicates nothing. */
  lemma {:induction false} ParseKeepsAll(optstring: string, args: seq<string>)
    ensures var p := Parse(optstring, args);
            multiset(p.opts + p.nonopts) == multiset(args) && |p.opts| + |p.nonopts| == |args|
    decreases |args|
  {
    if args != [] {
      var e := args[0];
      assert args == [e] + args[1..];
      if IsNonOption(e) {
        ParseKeepsAll(optstring, args[1..]);
      } else if e != "--" {
        var c := ParseCluster(optstring, e[1..], args[1..]);
        assert args == args[..1 + c.taken] + args[1 + c.taken..];
        ParseKeepsAll(optstring, args[1 + c.taken..]);
      }
    }
  }

  /** Without "--" among the options, no argument that looks like an option is left among the others. */
  lemma {:induction false} NonOptionsAreNot(optstring: string, args: seq<string>)
    ensures "--" in Parse(optstring, args).opts || forall e | e in Parse(optstring, args).nonopts :: IsNonOption(e)
    decreases |args|
  {
    if args != [] {
      var e := args[0];
      if IsNonOption(e) {
        NonOptionsAreNot(optstring, args[1..]);
      } else if e != "--" {
        NonOptionsAreNot(optstring, args[1 + ParseCluster(optstring, e[1..], args[1..]).taken..]);
      }
    }
  }
}
