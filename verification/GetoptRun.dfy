/** getopt as it runs in PERMUTE mode: exchange, one call, and a whole run. */
module GetoptRun {
  import opened GetoptSpec
  import opened Options

  /** With [b, m) and [m, t) exchanged, the position that the element at k comes from. */
  function Origin(b: nat, m: nat, t: nat, k: nat): nat
    requires b <= m <= t
  {
    if k < b then k else if k < b + (t - m) then k + (m - b) else if k < t then k - (t - m) else k
  }

  function Rotated<T>(a: seq<T>, b: nat, m: nat, t: nat): (r: seq<T>)
    requires b <= m <= t <= |a|
    ensures |r| == |a|
  {
    seq(|a|, k requires 0 <= k < |a| => a[Origin(b, m, t, k)])
  }

  /** Two adjacent segments change places, each in its order. */
  lemma {:induction false} RotatedExchanges<T>(a: seq<T>, b: nat, m: nat, t: nat)
    requires b <= m <= t <= |a|
    ensures Rotated(a, b, m, t) == a[..b] + a[m..t] + a[b..m] + a[t..]
  {
  }

  /** Two equally long blocks at p and q exchanged. */
  function BlocksSwapped<T>(a: seq<T>, p: nat, q: nat, len: nat): (r: seq<T>)
    requires p + len <= q && q + len <= |a|
    ensures |r| == |a|
  {
    seq(|a|, k requires 0 <= k < |a| =>
      if p <= k < p + len then a[k + (q - p)] else if q <= k < q + len then a[k - (q - p)] else a[k])
  }

  lemma {:induction false} SwapExtends<T>(a: seq<T>, p: nat, q: nat, i: nat)
    requires p + i + 1 <= q && q + i + 1 <= |a|
    ensures var c := BlocksSwapped(a, p, q, i);
            c[p + i := c[q + i]][q + i := c[p + i]] == BlocksSwapped(a, p, q, i + 1)
  {
  }

  /** Swapping the short bottom segment to the top leaves the same rotation to do on the rest. */
  lemma {:induction false} RotateBottomShort<T>(a: seq<T>, b: nat, m: nat, t: nat)
    requires b < m < t <= |a| && t - m > m - b
    ensures var len := m - b;
            Rotated(BlocksSwapped(a, b, t - len, len), b, m, t - len) == Rotated(a, b, m, t)
  {
    var len := m - b;
    var c := BlocksSwapped(a, b, t - len, len);
    var d, e := Rotated(c, b, m, t - len), Rotated(a, b, m, t);
    forall k | 0 <= k < |a|
      ensures d[k] == e[k]
    {
    }
  }

  lemma {:induction false} RotateTopShort<T>(a: seq<T>, b: nat, m: nat, t: nat)
    requires b < m < t <= |a| && t - m <= m - b
    ensures var len := t - m;
            Rotated(BlocksSwapped(a, b, m, len), b + len, m, t) == Rotated(a, b, m, t)
  {
    var len := t - m;
    var c := BlocksSwapped(a, b, m, len);
    var d, e := Rotated(c, b + len, m, t), Rotated(a, b, m, t);
    forall k | 0 <= k < |a|
      ensures d[k] == e[k]
    {
    }
  }

  lemma {:induction false} RotateNothing<T>(a: seq<T>, b: nat, m: nat, t: nat)
    requires b <= m <= t <= |a| && (b == m || m == t)
    ensures Rotated(a, b, m, t) == a
  {
  }

  lemma {:induction false} RotatedSlices<T>(a: seq<T>, b: nat, m: nat, t: nat)
    requires 1 <= b <= m <= t <= |a|
    ensures var r := Rotated(a, b, m, t);
            var k := b + (t - m);
            r[0] == a[0] && r[1..k] == a[1..b] + a[m..t] && r[k..t] == a[b..m] && r[t..] == a[t..]
  {
    var r := Rotated(a, b, m, t);
    var k := b + (t - m);
    var x, y := r[1..k], a[1..b] + a[m..t];
    assert |x| == |y|;
    forall i | 0 <= i < |x|
      ensures x[i] == y[i]
    {
      assert x[i] == r[i + 1] == a[Origin(b, m, t, i + 1)];
    }
    assert forall i | k <= i < t :: r[i] == a[Origin(b, m, t, i)] == a[i - (t - m)];
  }

  method SwapBlocks(argv: array<string>, p: nat, q: nat, len: nat)
    requires p + len <= q && q + len <= argv.Length
    modifies argv
    ensures argv[..] == BlocksSwapped(old(argv[..]), p, q, len)
  {
    assert argv[..] == BlocksSwapped(argv[..], p, q, 0);
    for i := 0 to len
      invariant argv[..] == BlocksSwapped(old(argv[..]), p, q, i)
    {
      SwapExtends(old(argv[..]), p, q, i);
      var tem := argv[p + i];
      argv[p + i] := argv[q + i];
      argv[q + i] := tem;
    }
  }

  /** Swap the short bottom segment with the top part of the top segment. */
  method SwapBottom(argv: array<string>, bottom: nat, middle: nat, top: nat) returns (t: nat)
    requires bottom < middle < top <= argv.Length && top - middle > middle - bottom
    modifies argv
    ensures middle < t < top && Rotated(argv[..], bottom, middle, t) == Rotated(old(argv[..]), bottom, middle, top)
  {
    hide BlocksSwapped, Rotated;
    ghost var cur := argv[..];
    var len := middle - bottom;
    RotateBottomShort(cur, bottom, middle, top);
    SwapBlocks(argv, bottom, top - len, len);
    t := top - len;
  }

  /** Swap the short top segment with the bottom part of the bottom segment. */
  method SwapTop(argv: array<string>, bottom: nat, middle: nat, top: nat) returns (b: nat)
    requires bottom < middle < top <= argv.Length && top - middle <= middle - bottom
    modifies argv
    ensures bottom < b <= middle && Rotated(argv[..], b, middle, top) == Rotated(old(argv[..]), bottom, middle, top)
  {
    hide BlocksSwapped, Rotated;
    ghost var cur := argv[..];
    var len := top - middle;
    RotateTopShort(cur, bottom, middle, top);
    SwapBlocks(argv, bottom, middle, len);
    b := bottom + len;
  }

  /** The rotation, by repeatedly swapping the shorter segment into its place. */
  method RotateInPlace(argv: array<string>, b: nat, m: nat, t: nat)
    requires b <= m <= t <= argv.Length
    modifies argv
    ensures argv[..] == Rotated(old(argv[..]), b, m, t)
  {
    hide Rotated;
    ghost var goal := Rotated(argv[..], b, m, t);
    var bottom: nat, middle: nat, top: nat := b, m, t;
    while top > middle && middle > bottom
      invariant bottom <= middle <= top <= argv.Length
      invariant Rotated(argv[..], bottom, middle, top) == goal
      decreases top - bottom
    {
      if top - middle > middle - bottom {
        top := SwapBottom(argv, bottom, middle, top);
      } else {
        bottom := SwapTop(argv, bottom, middle, top);
      }
    }
    RotateNothing(argv[..], bottom, middle, top);
  }

  // ----- the scanner

  /** The part of a line still to be read, given the characters left of its first element. */
  function Remaining(optstring: string, chars: string, args: seq<string>): Parsed
    requires chars != "" ==> args != []
  {
    if chars == "" then Parse(optstring, args) else Rest(optstring, chars, args)
  }

  lemma {:induction false} JoinJoin(e: seq<Event>, o: seq<string>, n: seq<string>, e': seq<Event>, o': seq<string>,
                                    n': seq<string>, p: Parsed)
    ensures Join(e, o, n, Join(e', o', n', p)) == Join(e + e', o + o', n + n', p)
  {
    assert e + (e' + p.events) == (e + e') + p.events;
    assert o + (o' + p.opts) == (o + o') + p.opts;
    assert n + (n' + p.nonopts) == (n + n') + p.nonopts;
  }

  /** A command line being scanned: the option string, the original line, and the values returned so far. */
  datatype Job = Job(optstring: string, orig: seq<string>, returned: seq<Event>) {
    ghost function Meaning(): Parsed
      requires orig != []
    {
      Parse(optstring, orig[1..])
    }
  }

  /**
   The segments of argv between calls: [1, first) and [last, ind) are options,
   [first, last) is not, and the rest is unread but for the characters before
   `chars` of its first element. Together they still mean the whole line.
   */
  ghost predicate Segments(j: Job, a: seq<string>, first: nat, last: nat, ind: nat, chars: string) {
    1 <= first <= last <= ind <= |a| == |j.orig| && a[0] == j.orig[0] && (chars != "" ==> ind < |a|) &&
    j.Meaning() == Accounted(j, a, first, last, ind, chars)
  }

  ghost function Accounted(j: Job, a: seq<string>, first: nat, last: nat, ind: nat, chars: string): Parsed
    requires 1 <= first <= last <= ind <= |a| && (chars != "" ==> ind < |a|)
  {
    Join(j.returned, a[1..first] + a[last..ind], a[first..last], Remaining(j.optstring, chars, a[ind..]))
  }

  /** The same with all options read so far in front. */
  ghost predicate Sorted(j: Job, a: seq<string>, first: nat, ind: nat) {
    1 <= first <= ind <= |a| == |j.orig| && a[0] == j.orig[0] &&
    j.Meaning() == AccountedSorted(j, a, first, ind)
  }

  ghost function AccountedSorted(j: Job, a: seq<string>, first: nat, ind: nat): Parsed
    requires 1 <= first <= ind <= |a|
  {
    Join(j.returned, a[1..first], a[first..ind], Parse(j.optstring, a[ind..]))
  }

  /** The scan is over: options in front in their order, the others behind in theirs. */
  ghost predicate Finished(j: Job, a: seq<string>, ind: nat) {
    j.orig != [] && j.returned == j.Meaning().events &&
    a == [j.orig[0]] + j.Meaning().opts + j.Meaning().nonopts && ind == 1 + |j.Meaning().opts|
  }

  lemma {:induction false} ExchangeSorts(j: Job, a: seq<string>, first: nat, last: nat, ind: nat)
    requires Segments(j, a, first, last, ind, "")
    ensures Sorted(j, Rotated(a, first, last, ind), first + (ind - last), ind)
  {
    RotatedSlices(a, first, last, ind);
  }

  lemma {:induction false} SameSorted(j: Job, r: seq<string>, a: seq<string>, first: nat, ind: nat)
    requires Sorted(j, r, first, ind) && a == r
    ensures Sorted(j, a, first, ind)
  {
  }

  lemma {:induction false} SkipNonOption(j: Job, a: seq<string>, first: nat, ind: nat)
    requires Sorted(j, a, first, ind) && ind < |a| && IsNonOption(a[ind])
    ensures Sorted(j, a, first, ind + 1)
  {
    assert a[ind..][1..] == a[ind + 1..];
    JoinJoin(j.returned, a[1..first], a[first..ind], [], [], [a[ind]], Parse(j.optstring, a[ind + 1..]));
    assert a[1..first] + [] == a[1..first] && j.returned + [] == j.returned;
    assert a[first..ind + 1] == a[first..ind] + [a[ind]];
  }

  lemma {:induction false} FinishedAt(j: Job, a: seq<string>, k: nat)
    requires 1 <= k <= |a| == |j.orig| && a[0] == j.orig[0]
    requires j.Meaning() == Parsed(j.returned, a[1..k], a[k..])
    ensures Finished(j, a, k)
  {
    assert a == [a[0]] + a[1..k] + a[k..];
  }

  /** "--" is sorted to the options as if it were one; everything behind it is a non-option. */
  lemma {:induction false} DashDashEnds(j: Job, a: seq<string>, first: nat, ind: nat)
    requires Sorted(j, a, first, ind) && ind < |a| && a[ind] == "--"
    ensures Finished(j, Rotated(a, first, ind, ind + 1), first + 1)
  {
    hide Origin, Rotated;
    var r := Rotated(a, first, ind, ind + 1);
    RotatedSlices(a, first, ind, ind + 1);
    assert a[ind..][1..] == a[ind + 1..];
    assert Parse(j.optstring, a[ind..]) == Parsed([], [a[ind]], a[ind + 1..]);
    assert a[ind..ind + 1] == [a[ind]] && j.returned + [] == j.returned;
    assert r[first + 1..] == r[first + 1..ind + 1] + r[ind + 1..];
    FinishedAt(j, r, first + 1);
  }

  lemma {:induction false} LineEnds(j: Job, a: seq<string>, first: nat)
    requires Sorted(j, a, first, |a|)
    ensures Finished(j, a, first)
  {
    assert a[|a|..] == [] && a[first..|a|] == a[first..];
    assert j.returned + [] == j.returned && a[1..first] + [] == a[1..first] && a[first..] + [] == a[first..];
    FinishedAt(j, a, first);
  }

  lemma {:induction false} ElementStarts(j: Job, a: seq<string>, first: nat, ind: nat)
    requires Sorted(j, a, first, ind) && ind < |a| && !IsNonOption(a[ind]) && a[ind] != "--"
    ensures Segments(j, a, first, ind, ind, a[ind][1..])
  {
    assert a[1..first] + a[ind..ind] == a[1..first];
  }

  /** What reading one option character does: the value returned, the characters left, the elements used up. */
  datatype Step = Step(event: Event, chars: string, used: nat)

  function ReadChar(optstring: string, chars: string, rest: seq<string>): (s: Step)
    requires chars != ""
    ensures s.used <= 1 + |rest| && (s.used == 0 <==> s.chars != "")
    ensures |s.chars| < |chars|
  {
    var c, tail := chars[0], chars[1..];
    match KindOf(optstring, c)
    case Unknown => Step(Event('?', None), tail, if tail == "" then 1 else 0)
    case Plain => Step(Event(c, None), tail, if tail == "" then 1 else 0)
    case Optional => Step(Event(c, if tail != "" then Some(tail) else None), "", 1)
    case Required =>
      if tail != "" then Step(Event(c, Some(tail)), "", 1)
      else if rest == [] then Step(Event(Missing(optstring), None), "", 1)
      else Step(Event(c, Some(rest[0])), "", 2)
  }

  /** One character's step is the first event of what remains, and the rest of it. */
  lemma {:induction false} RestSteps(optstring: string, chars: string, args: seq<string>)
    requires chars != "" && args != []
    ensures var s := ReadChar(optstring, chars, args[1..]);
            s.used <= |args| &&
            Remaining(optstring, chars, args)
              == Join([s.event], args[..s.used], [], Remaining(optstring, s.chars, args[s.used..]))
  {
    var rest := args[1..];
    var s := ReadChar(optstring, chars, rest);
    var c := ParseCluster(optstring, chars, rest);
    if s.chars != "" {
      var d := ParseCluster(optstring, s.chars, rest);
      assert args[..0] == [] && args[0..] == args;
      assert c == Cluster([s.event] + d.events, d.taken);
      JoinJoin([s.event], [], [], d.events, args[..1 + d.taken], [], Parse(optstring, args[1 + d.taken..]));
    } else {
      assert c == Cluster([s.event], s.used - 1);
    }
  }

  lemma {:induction false} CharSteps(j: Job, a: seq<string>, first: nat, last: nat, ind: nat, chars: string)
    requires Segments(j, a, first, last, ind, chars) && chars != ""
    ensures var s := ReadChar(j.optstring, chars, a[ind + 1..]);
            Segments(j.(returned := j.returned + [s.event]), a, first, last, ind + s.used, s.chars)
  {
    hide ReadChar, Remaining;
    var args := a[ind..];
    assert args[1..] == a[ind + 1..];
    RestSteps(j.optstring, chars, args);
    var s := ReadChar(j.optstring, chars, args[1..]);
    var o, n := a[1..first] + a[last..ind], a[first..last];
    JoinJoin(j.returned, o, n, [s.event], args[..s.used], [], Remaining(j.optstring, s.chars, args[s.used..]));
    assert args[s.used..] == a[ind + s.used..];
    assert o + args[..s.used] == a[1..first] + a[last..ind + s.used];
    assert n + [] == n;
  }

  class Scanner {
    const optstring: string
    const argv: array<string>
    var optind: nat
    var nextchar: string
    var firstNonopt: nat
    var lastNonopt: nat
    var optarg: Option<string>
    ghost const orig: seq<string>
    ghost var returned: seq<Event>

    ghost predicate Valid()
      reads this, argv
    {
      Segments(Job(optstring, orig, returned), argv[..], firstNonopt, lastNonopt, optind, nextchar)
    }

    ghost predicate Done()
      reads this, argv
    {
      Finished(Job(optstring, orig, returned), argv[..], optind)
    }

    constructor (argv: array<string>, optstring: string)
      requires argv.Length >= 1 && ShortOptions(optstring)
      ensures Valid() && this.argv == argv && this.optstring == optstring && orig == argv[..]
      ensures optind == 1 && nextchar == "" && returned == []
    {
      this.argv, this.optstring := argv, optstring;
      optind, nextchar, firstNonopt, lastNonopt, optarg := 1, "", 1, 1, None;
      orig, returned := argv[..], [];
      new;
      ghost var p := Parse(optstring, orig[1..]);
      assert orig[1..1] == [] && [] + p.events == p.events && [] + p.opts == p.opts && [] + p.nonopts == p.nonopts;
    }

    /** Exchange the skipped non-options with the options processed since, and relocate their bounds. */
    method Exchange()
      requires firstNonopt <= lastNonopt <= optind <= argv.Length
      modifies this`firstNonopt, this`lastNonopt, argv
      ensures argv[..] == Rotated(old(argv[..]), old(firstNonopt), old(lastNonopt), optind)
      ensures firstNonopt == old(firstNonopt) + (optind - old(lastNonopt)) && lastNonopt == optind
    {
      RotateInPlace(argv, firstNonopt, lastNonopt, optind);
      firstNonopt := firstNonopt + (optind - lastNonopt);
      lastNonopt := optind;
    }

    /** If options have been processed behind non-options, they are exchanged. */
    method SortProcessed()
      requires 1 <= firstNonopt <= lastNonopt <= optind <= argv.Length
      modifies this`firstNonopt, this`lastNonopt, argv
      ensures argv[..] == Rotated(old(argv[..]), old(firstNonopt), old(lastNonopt), optind)
      ensures firstNonopt == old(firstNonopt) + (optind - old(lastNonopt))
    {
      if firstNonopt != lastNonopt && lastNonopt != optind {
        Exchange();
      } else {
        RotateNothing(argv[..], firstNonopt, lastNonopt, optind);
        if lastNonopt != optind {
          firstNonopt := optind;
        }
      }
    }

    method SkipNonOptions()
      requires Sorted(Job(optstring, orig, returned), argv[..], firstNonopt, optind)
      modifies this`optind, this`lastNonopt
      ensures Sorted(Job(optstring, orig, returned), argv[..], firstNonopt, optind) &&
              lastNonopt == optind >= old(optind)
      ensures optind < argv.Length ==> !IsNonOption(argv[optind])
    {
      while optind < argv.Length && IsNonOption(argv[optind])
        invariant Sorted(Job(optstring, orig, returned), argv[..], firstNonopt, optind) && optind >= old(optind)
        decreases argv.Length - optind
      {
        SkipNonOption(Job(optstring, orig, returned), argv[..], firstNonopt, optind);
        optind := optind + 1;
      }
      lastNonopt := optind;
    }

    /** "--" is skipped like an option, exchanged like one, and ends the scan. */
    method EndOfOptions()
      requires Sorted(Job(optstring, orig, returned), argv[..], firstNonopt, optind) &&
               lastNonopt == optind < argv.Length && argv[optind] == "--"
      modifies this`optind, this`firstNonopt, this`lastNonopt, argv
      ensures firstNonopt <= lastNonopt == optind == argv.Length
      ensures Finished(Job(optstring, orig, returned), argv[..], firstNonopt)
    {
      hide AccountedSorted, Rotated;
      DashDashEnds(Job(optstring, orig, returned), argv[..], firstNonopt, optind);
      RotateNothingIfEmpty(argv[..], firstNonopt, optind);
      optind := optind + 1;
      if firstNonopt != lastNonopt && lastNonopt != optind {
        Exchange();
      } else if firstNonopt == lastNonopt {
        firstNonopt := optind;
      }
      lastNonopt := argv.Length;
      optind := argv.Length;
    }

    /** Sort what has been processed, and skip the non-options behind it. */
    method Sweep()
      requires Valid() && nextchar == ""
      modifies this`optind, this`firstNonopt, this`lastNonopt, argv
      ensures Sorted(Job(optstring, orig, returned), argv[..], firstNonopt, optind) &&
              lastNonopt == optind >= old(optind)
      ensures optind < argv.Length ==> !IsNonOption(argv[optind])
    {
      hide Accounted, AccountedSorted, Rotated;
      ghost var j := Job(optstring, orig, returned);
      ghost var r := Rotated(argv[..], firstNonopt, lastNonopt, optind);
      ExchangeSorts(j, argv[..], firstNonopt, lastNonopt, optind);
      SortProcessed();
      SameSorted(j, r, argv[..], firstNonopt, optind);
      SkipNonOptions();
    }

    /** Move on to the next element: to its first option character, or to the end of the options. */
    method Advance() returns (done: bool)
      requires Valid() && nextchar == ""
      modifies this`optind, this`nextchar, this`firstNonopt, this`lastNonopt, argv
      ensures !done ==> Valid() && nextchar != "" && optind >= old(optind)
      ensures done ==> Done()
    {
      hide Accounted, AccountedSorted;
      Sweep();
      if optind != argv.Length && argv[optind] == "--" {
        EndOfOptions();
      } else if optind == argv.Length {
        LineEnds(Job(optstring, orig, returned), argv[..], firstNonopt);
      }
      if optind == argv.Length {
        if firstNonopt != lastNonopt {
          optind := firstNonopt;
        }
        return true;
      }
      ElementStarts(Job(optstring, orig, returned), argv[..], firstNonopt, optind);
      nextchar := argv[optind][1..];
      return false;
    }

    /** Decode the character at nextchar: its argument, and how far optind moves. */
    method DecodeChar() returns (code: char)
      requires nextchar != "" && optind < argv.Length && optarg == None
      modifies this`optind, this`nextchar, this`optarg
      ensures var s := ReadChar(optstring, old(nextchar), argv[..][old(optind) + 1..]);
              code == s.event.code && optarg == s.event.arg && nextchar == s.chars && optind == old(optind) + s.used
    {
      var c := nextchar[0];
      nextchar := nextchar[1..];
      var temp := IndexOf(optstring, c);
      if nextchar == "" {
        optind := optind + 1;
      }
      if temp == |optstring| || c == ':' {
        return '?';
      }
      if CharAt(optstring, temp + 1) == ':' {
        if CharAt(optstring, temp + 2) == ':' {
          if nextchar != "" {
            optarg := Some(nextchar);
            optind := optind + 1;
          } else {
            optarg := None;
          }
          nextchar := "";
        } else {
          if nextchar != "" {
            optarg := Some(nextchar);
            optind := optind + 1;
          } else if optind == argv.Length {
            c := if CharAt(optstring, 0) == ':' then ':' else '?';
          } else {
            optarg := Some(argv[optind]);
            optind := optind + 1;
          }
          nextchar := "";
        }
      }
      return c;
    }

    /** One call: the next option, or None (-1) when there is no more. */
    method Call() returns (code: Option<char>)
      requires Valid()
      modifies this`optind, this`nextchar, this`firstNonopt, this`lastNonopt, this`optarg, this`returned, argv
      ensures code.None? ==> Done() && returned == old(returned)
      ensures code.Some? ==> Valid() && returned == old(returned) + [Event(code.value, optarg)]
      ensures code.Some? ==> optind > old(optind) || (optind == old(optind) && nextchar != "" &&
                             (old(nextchar) == "" || |nextchar| < |old(nextchar)|))
    {
      optarg := None;
      if nextchar == "" {
        var done := Advance();
        if done {
          return None;
        }
      }
      var c := NextChar();
      code := Some(c);
    }

    method NextChar() returns (code: char)
      requires Valid() && nextchar != "" && optarg == None
      modifies this`optind, this`nextchar, this`optarg, this`returned
      ensures Valid() && returned == old(returned) + [Event(code, optarg)]
      ensures optind > old(optind) || (optind == old(optind) && nextchar != "" && |nextchar| < |old(nextchar)|)
    {
      hide Accounted, ReadChar;
      ghost var j, a := Job(optstring, orig, returned), argv[..];
      ghost var s := ReadChar(optstring, nextchar, a[optind + 1..]);
      CharSteps(j, a, firstNonopt, lastNonopt, optind, nextchar);
      code := DecodeChar();
      returned := returned + [s.event];
      assert argv[..] == a && Job(optstring, orig, returned) == j.(returned := j.returned + [s.event]);
    }
  }

  /**
   A whole run, from the first call to the first -1: it ends, the values returned
   are those of the line read from left to right, and argv is the program name,
   the options with their arguments in their order, then the others in theirs.
   */
  method Run(argv: array<string>, optstring: string) returns (events: seq<Event>, optind: nat)
    requires argv.Length >= 1 && ShortOptions(optstring)
    modifies argv
    ensures var p := Parse(optstring, old(argv[..])[1..]);
            events == p.events && optind == 1 + |p.opts| &&
            argv[..] == [old(argv[0])] + p.opts + p.nonopts
  {
    var s := new Scanner(argv, optstring);
    events := [];
    var more := true;
    while more
      invariant s.argv == argv && s.optstring == optstring && s.orig == old(argv[..]) && fresh(s)
      invariant events == s.returned
      invariant if more then s.Valid() else s.Done()
      decreases more, argv.Length - s.optind, s.nextchar == "", |s.nextchar|
    {
      var code := s.Call();
      if code.None? {
        more := false;
      } else {
        events := events + [Event(code.value, s.optarg)];
      }
    }
    optind := s.optind;
  }

  lemma {:induction false} RotateNothingIfEmpty<T>(a: seq<T>, b: nat, m: nat)
    requires b <= m < |a|
    ensures b == m ==> Rotated(a, b, m, m + 1) == a
  {
  }
}
