/** Whether the permuted command line means what the original did. */
module GetoptReparse {
  import opened GetoptSpec

  /** The last option among these characters requires an argument that they do not hold. */
  predicate ClusterLacks(optstring: string, chars: string)
    requires chars != ""
  {
    match KindOf(optstring, chars[0])
    case Unknown | Plain => chars[1..] != "" && ClusterLacks(optstring, chars[1..])
    case Optional => false
    case Required => chars[1..] == ""
  }

  /** The line is over where its last option still needs an argument. */
  predicate EndsOpen(optstring: string, args: seq<string>)
    decreases |args|
  {
    args != [] &&
    if IsNonOption(args[0]) then EndsOpen(optstring, args[1..])
    else if args[0] == "--" then false
    else if |args| == 1 then ClusterLacks(optstring, args[0][1..])
    else EndsOpen(optstring, args[1 + ParseCluster(optstring, args[0][1..], args[1..]).taken..])
  }

  /** "--" ended the options. */
  predicate EndedByDashes(optstring: string, args: seq<string>)
    decreases |args|
  {
    args != [] &&
    if IsNonOption(args[0]) then EndedByDashes(optstring, args[1..])
    else args[0] == "--" || EndedByDashes(optstring, args[1 + ParseCluster(optstring, args[0][1..], args[1..]).taken..])
  }

  predicate AllNonOptions(args: seq<string>) {
    forall e | e in args :: IsNonOption(e)
  }

  /** What follows matters to an element only as the argument of an option that lacks one. */
  lemma {:induction false} ClusterSees(optstring: string, chars: string, a: seq<string>, b: seq<string>)
    requires chars != ""
    requires ClusterLacks(optstring, chars) ==> a != [] && b != [] && a[0] == b[0]
    ensures ParseCluster(optstring, chars, a) == ParseCluster(optstring, chars, b)
    ensures ParseCluster(optstring, chars, a).taken == if ClusterLacks(optstring, chars) then 1 else 0
    decreases |chars|
  {
    if chars[1..] != "" && (KindOf(optstring, chars[0]).Unknown? || KindOf(optstring, chars[0]).Plain?) {
      ClusterSees(optstring, chars[1..], a, b);
    }
  }

  lemma {:induction false} ParseNonOptions(optstring: string, n: seq<string>)
    requires AllNonOptions(n)
    ensures Parse(optstring, n) == Parsed([], [], n)
    decreases |n|
  {
    if n != [] {
      assert n[0] in n;
      ParseNonOptions(optstring, n[1..]);
      assert [n[0]] + n[1..] == n;
    }
  }

  /** The sorted options, read again in front of other arguments, start with the same element and its argument. */
  lemma {:induction false} SameStart(optstring: string, args: seq<string>, n: seq<string>)
    requires args != [] && !IsNonOption(args[0]) && args[0] != "--"
    requires |args| == 1 ==> !ClusterLacks(optstring, args[0][1..])
    ensures var t := ParseCluster(optstring, args[0][1..], args[1..]).taken;
            var p, q := Parse(optstring, args), Parse(optstring, args[1 + t..]);
            var events := ParseCluster(optstring, args[0][1..], args[1..]).events;
            p == Join(events, args[..1 + t], [], q) &&
            Parse(optstring, p.opts + n) == Join(events, args[..1 + t], [], Parse(optstring, q.opts + n))
  {
    var chars, rest := args[0][1..], args[1..];
    var c := ParseCluster(optstring, chars, rest);
    var t := c.taken;
    var q := Parse(optstring, args[1 + t..]);
    var again := args[..1 + t] + q.opts + n;
    ClusterSees(optstring, chars, rest, rest);
    assert t == 1 ==> again[1] == rest[0];
    ClusterSees(optstring, chars, rest, again[1..]);
    assert again[0] == args[0] && again[..1 + t] == args[..1 + t] && again[1 + t..] == q.opts + n;
    assert Parse(optstring, args) == Join(c.events, args[..1 + t], [], q);
    assert (args[..1 + t] + q.opts) + n == again;
    assert Parse(optstring, again) == Rest(optstring, chars, again);
  }

  lemma {:induction false} ClosedReparses(optstring: string, args: seq<string>, n: seq<string>)
    requires !EndsOpen(optstring, args) && (EndedByDashes(optstring, args) || AllNonOptions(n))
    ensures var p := Parse(optstring, args); Parse(optstring, p.opts + n) == Parsed(p.events, p.opts, n)
    decreases |args|
  {
    if args == [] {
      ParseNonOptions(optstring, n);
      assert [] + n == n;
    } else if IsNonOption(args[0]) {
      var q := Parse(optstring, args[1..]);
      assert [] + q.opts == q.opts && [] + q.events == q.events;
      ClosedReparses(optstring, args[1..], n);
    } else if args[0] == "--" {
      assert (["--"] + n)[1..] == n;
    } else {
      SameStart(optstring, args, n);
      ClosedReparses(optstring, args[1 + ParseCluster(optstring, args[0][1..], args[1..]).taken..], n);
    }
  }

  /** An option left without its argument takes the first argument that comes to stand behind it. */
  lemma {:induction false} OpenTakesMore(optstring: string, args: seq<string>, n: seq<string>)
    requires EndsOpen(optstring, args) && n != []
    ensures var p := Parse(optstring, args); |Parse(optstring, p.opts + n).opts| > |p.opts|
    decreases |args|
  {
    if IsNonOption(args[0]) {
      var q := Parse(optstring, args[1..]);
      assert [] + q.opts == q.opts;
      OpenTakesMore(optstring, args[1..], n);
    } else if |args| == 1 {
      var chars := args[0][1..];
      ClusterSees(optstring, chars, n, n);
      var p := Parse(optstring, args);
      assert args[1..] == [] && args[..1] == [args[0]];
      TakesNothing(optstring, chars, args[1..]);
      assert p == Rest(optstring, chars, args) && Parse(optstring, args[1..]) == Parsed([], [], []);
      assert p.opts == [args[0]];
      assert (p.opts + n)[1..] == n;
      assert Parse(optstring, p.opts + n) == Rest(optstring, chars, p.opts + n);
    } else {
      SameStart(optstring, args, n);
      OpenTakesMore(optstring, args[1 + ParseCluster(optstring, args[0][1..], args[1..]).taken..], n);
    }
  }

  lemma {:induction false} TakesNothing(optstring: string, chars: string, rest: seq<string>)
    requires chars != "" && rest == []
    ensures ParseCluster(optstring, chars, rest).taken == 0
  {
  }

  /** With nothing sorted to the end, or with "--", the parts are as the re-reading needs them. */
  lemma {:induction false} PartsOf(optstring: string, args: seq<string>)
    ensures var p := Parse(optstring, args);
            (p.nonopts == [] ==> p.opts == args) && (EndedByDashes(optstring, args) || AllNonOptions(p.nonopts))
    decreases |args|
  {
    if args != [] {
      if IsNonOption(args[0]) {
        PartsOf(optstring, args[1..]);
      } else if args[0] == "--" {
        assert [args[0]] + args[1..] == args;
      } else {
        var t := ParseCluster(optstring, args[0][1..], args[1..]).taken;
        PartsOf(optstring, args[1 + t..]);
        assert args[..1 + t] + args[1 + t..] == args;
      }
    }
  }

  /** The permuted line means the same again unless its last option lacked an argument and there is a
      non-option, which then takes that place. */
  lemma {:induction false} ReparseIff(optstring: string, args: seq<string>)
    ensures var p := Parse(optstring, args);
            Parse(optstring, p.opts + p.nonopts) == p <==> !EndsOpen(optstring, args) || p.nonopts == []
  {
    var p := Parse(optstring, args);
    PartsOf(optstring, args);
    if !EndsOpen(optstring, args) {
      ClosedReparses(optstring, args, p.nonopts);
    } else if p.nonopts == [] {
      assert p.opts + [] == args;
    } else {
      OpenTakesMore(optstring, args, p.nonopts);
    }
  }
}
