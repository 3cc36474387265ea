/** What an option string means: its entries, and what each makes of the characters of a command line. */
module GetoptOptions {
  import opened Options
  import opened GetoptSpec

  /** A character and the number of colons behind it. */
  datatype Entry = Entry(c: char, colons: nat)

  predicate Proper(entries: seq<Entry>) {
    forall k | 0 <= k < |entries| :: entries[k].c != ':' && entries[k].colons <= 2
  }

  function Colons(n: nat): (s: string)
    ensures |s| == n && forall k | 0 <= k < n :: s[k] == ':'
  {
    seq(n, _ => ':')
  }

  function Written(entries: seq<Entry>): string {
    if entries == [] then "" else [entries[0].c] + Colons(entries[0].colons) + Written(entries[1..])
  }

  /** The option string of these entries; a leading colon makes a missing argument come out as a colon. */
  function OptString(silent: bool, entries: seq<Entry>): string {
    (if silent then ":" else "") + Written(entries)
  }

  /** The first entry of a character counts. */
  function Lookup(entries: seq<Entry>, c: char): Option<nat> {
    if entries == [] then None
    else if entries[0].c == c then Some(entries[0].colons)
    else Lookup(entries[1..], c)
  }

  function KindMeant(colons: Option<nat>): Kind {
    match colons
    case None => Unknown
    case Some(n) => if n == 0 then Plain else if n == 1 then Required else Optional
  }

  lemma {:induction false} IndexBehind(pre: string, s: string, c: char)
    requires c !in pre
    ensures IndexOf(pre + s, c) == |pre| + IndexOf(s, c)
  {
    if pre == "" {
      assert pre + s == s;
    } else {
      assert pre == [pre[0]] + pre[1..];
      assert (pre + s)[1..] == pre[1..] + s;
      IndexBehind(pre[1..], s, c);
    }
  }

  lemma {:induction false} WrittenStart(entries: seq<Entry>)
    requires Proper(entries)
    ensures CharAt(Written(entries), 0) != ':'
  {
    if entries != [] {
      assert entries[0].c != ':';
    }
  }

  /** The two characters behind an entry's character. */
  lemma {:induction false} Following(pre: string, c: char, colons: nat, rest: string)
    requires colons <= 2 && CharAt(rest, 0) != ':'
    ensures var s := pre + ([c] + Colons(colons) + rest);
            (CharAt(s, |pre| + 1) == ':' <==> colons >= 1) &&
            (CharAt(s, |pre| + 1) == CharAt(s, |pre| + 2) == ':' <==> colons == 2)
  {
    var s := pre + ([c] + Colons(colons) + rest);
    var n := |pre|;
    forall m | n <= m < |s|
      ensures s[m] == if m == n then c else if m <= n + colons then ':' else rest[m - n - 1 - colons]
    {
    }
  }

  /** Behind any characters other than c, the entries say what kind of option c is. */
  lemma {:induction false} KindBehind(pre: string, entries: seq<Entry>, c: char)
    requires Proper(entries) && c !in pre && c != ':'
    ensures KindOf(pre + Written(entries), c) == KindMeant(Lookup(entries, c))
    decreases |entries|
  {
    hide CharAt;
    if entries == [] {
      IndexBehind(pre, "", c);
      assert pre + "" == pre;
    } else {
      var e, rest := entries[0], Written(entries[1..]);
      assert Proper(entries[1..]);
      var all := [e.c] + Colons(e.colons) + rest;
      if e.c == c {
        WrittenStart(entries[1..]);
        Following(pre, c, e.colons, rest);
        IndexBehind(pre, all, c);
      } else {
        var longer := pre + ([e.c] + Colons(e.colons));
        assert pre + all == longer + rest;
        KindBehind(longer, entries[1..], c);
      }
    }
  }

  /** The meaning of an option string: each character is the kind of option that its entry says. */
  lemma {:induction false} KindIs(silent: bool, entries: seq<Entry>, c: char)
    requires Proper(entries)
    ensures KindOf(OptString(silent, entries), c) == KindMeant(Lookup(entries, c))
    ensures Missing(OptString(silent, entries)) == if silent then ':' else '?'
  {
    hide KindMeant;
    var pre := if silent then ":" else "";
    WrittenStart(entries);
    if c == ':' {
      NoColonEntry(entries);
    } else {
      KindBehind(pre, entries, c);
    }
  }

  lemma {:induction false} NoColonEntry(entries: seq<Entry>)
    requires Proper(entries)
    ensures KindMeant(Lookup(entries, ':')) == Unknown
  {
    if entries != [] {
      assert entries[0].c != ':';
      NoColonEntry(entries[1..]);
    }
  }

  /** What follows an option character on a command line, as its entry in the option string says. */
  ghost predicate ReadAs(silent: bool, entries: seq<Entry>, c: char, tail: string, e: string, rest: seq<string>,
                         p: Parsed)
  {
    var o := OptString(silent, entries);
    match Lookup(entries, c)
    case None => p == Join([Event('?', None)], [], [], Continued(o, tail, e, rest))
    case Some(0) => p == Join([Event(c, None)], [], [], Continued(o, tail, e, rest))
    case Some(1) =>
      if tail != "" then p == Join([Event(c, Some(tail))], [e], [], Parse(o, rest))
      else if rest != [] then p == Join([Event(c, Some(rest[0]))], [e, rest[0]], [], Parse(o, rest[1..]))
      else p == Parsed([Event(if silent then ':' else '?', None)], [e], [])
    case Some(_) => p == Join([Event(c, if tail != "" then Some(tail) else None)], [e], [], Parse(o, rest))
  }

  /** The further characters of the same element e, if there are any, and the elements behind it. */
  function Continued(o: string, tail: string, e: string, rest: seq<string>): Parsed {
    if tail == "" then Join([], [e], [], Parse(o, rest)) else Rest(o, tail, [e] + rest)
  }

  /** One option character, alone or in front of others. */
  lemma {:induction false} CharacterMeaning(silent: bool, entries: seq<Entry>, c: char, tail: string, e: string,
                                            rest: seq<string>)
    requires Proper(entries)
    ensures ReadAs(silent, entries, c, tail, e, rest, Rest(OptString(silent, entries), [c] + tail, [e] + rest))
  {
    hide KindOf, OptString, Missing, Parse, ParseCluster, Lookup;
    var o, line := OptString(silent, entries), [e] + rest;
    KindIs(silent, entries, c);
    LookupSmall(entries, c);
    ClusterStart(o, c, tail, rest);
    assert line[1..] == rest && line[..1] == [e];
    var k := ParseCluster(o, [c] + tail, rest);
    if k.taken == 1 {
      assert line[..2] == [e, rest[0]] && line[2..] == rest[1..];
    }
    if KindOf(o, c).Required? {
      EmptyLine(o);
    } else if tail != "" && !KindOf(o, c).Optional? {
      Regrouped(k.events[..1], ParseCluster(o, tail, rest), line, Parse(o, line[1 + k.taken..]));
    }
  }

  lemma {:induction false} Regrouped(first: seq<Event>, r: Cluster, line: seq<string>, p: Parsed)
    requires 1 + r.taken <= |line|
    ensures Join(first + r.events, line[..1 + r.taken], [], p)
         == Join(first, [], [], Join(r.events, line[..1 + r.taken], [], p))
  {
    assert first + r.events + p.events == first + (r.events + p.events);
  }

  lemma {:induction false} ClusterStart(o: string, c: char, tail: string, rest: seq<string>)
    ensures var k := ParseCluster(o, [c] + tail, rest);
            match KindOf(o, c)
            case Unknown | Plain =>
              k == (var e := Event(if KindOf(o, c) == Plain then c else '?', None);
                    if tail == "" then Cluster([e], 0)
                    else var r := ParseCluster(o, tail, rest); Cluster([e] + r.events, r.taken))
            case Optional => k == Cluster([Event(c, if tail != "" then Some(tail) else None)], 0)
            case Required =>
              k == if tail != "" then Cluster([Event(c, Some(tail))], 0)
                   else if rest == [] then Cluster([Event(Missing(o), None)], 0)
                   else Cluster([Event(c, Some(rest[0]))], 1)
  {
    hide KindOf;
    assert ([c] + tail)[0] == c && ([c] + tail)[1..] == tail;
  }

  lemma {:induction false} EmptyLine(o: string)
    ensures Parse(o, []) == Parsed([], [], [])
  {
  }

  lemma {:induction false} LookupSmall(entries: seq<Entry>, c: char)
    requires Proper(entries)
    ensures Lookup(entries, c).Some? ==> Lookup(entries, c).value <= 2
  {
    if entries != [] {
      LookupSmall(entries[1..], c);
    }
  }

  /**
   The meaning of each element of a command line, for every option string. Only "--" ends the options; an element
   that is shorter than two characters or does not start with '-' is no option; any other is read character by
   character. A required argument is the rest of the element or, if there is none, the next element whatever it is;
   an optional one is the rest of the element or absent; a missing one and an unknown character are reported.
   */
  lemma {:induction false} ElementMeaning(silent: bool, entries: seq<Entry>, e: string, rest: seq<string>)
    requires Proper(entries)
    ensures var o := OptString(silent, entries);
            var p := Parse(o, [e] + rest);
            if |e| < 2 || e[0] != '-' then p == Join([], [], [e], Parse(o, rest))
            else if e == "--" then p == Parsed([], ["--"], rest)
            else ReadAs(silent, entries, e[1], e[2..], e, rest, p)
  {
    hide ParseCluster, OptString, ReadAs;
    var o, line := OptString(silent, entries), [e] + rest;
    assert line[0] == e && line[1..] == rest;
    if |e| >= 2 && e[0] == '-' && e != "--" {
      assert e[1..] == [e[1]] + e[2..];
      CharacterMeaning(silent, entries, e[1], e[2..], e, rest);
    }
  }
}
