/** The Forwarded header (src/proxy/forwarded_header.rs; RFC 7239, sections 4 and 5.2): what `from_info`
reads of what `Display` printed at the previous hop. */
module Forwarded {
  import opened Basics

  // ---------------------------------------------------------------------------------------------
  // Strings
  // ---------------------------------------------------------------------------------------------

  predicate StartsWith(s: string, p: string) {
    |p| <= |s| && s[..|p|] == p
  }

  /** The first place where `p` stands in `s`. */
  function Find(s: string, p: string): (r: Option<nat>)
    ensures r.Some? ==> r.value + |p| <= |s| && s[r.value..][..|p|] == p
  {
    if StartsWith(s, p) then Some(0)
    else if s == [] then None
    else
      match Find(s[1..], p)
      case None => None
      case Some(i) => Some(i + 1)
  }

  /** Everything before the first `c`, or everything. */
  function UpTo(s: string, c: char): string {
    if s == [] || s[0] == c then [] else [s[0]] + UpTo(s[1..], c)
  }

  /** The pieces between the `c`s: one more than there are `c`s. */
  function Split(s: string, c: char): (r: seq<string>)
    ensures r != []
  {
    if s == [] then [[]]
    else
      var rest := Split(s[1..], c);
      if s[0] == c then [[]] + rest else [[s[0]] + rest[0]] + rest[1..]
  }

  /** `s` without its occurrences of `p`, taken from the left without overlap. */
  function Without(s: string, p: string): string
    requires p != []
    decreases |s|
  {
    if StartsWith(s, p) then Without(s[|p|..], p)
    else if s == [] then []
    else [s[0]] + Without(s[1..], p)
  }

  function Join(parts: seq<string>, sep: string): string {
    if parts == [] then [] else if |parts| == 1 then parts[0] else parts[0] + sep + Join(parts[1..], sep)
  }

  // ---------------------------------------------------------------------------------------------
  // The header
  // ---------------------------------------------------------------------------------------------

  datatype Header = Header(byNode: string, fors: seq<string>, host: string, proto: string)

  function Labelled(fors: seq<string>): (r: seq<string>)
    ensures |r| == |fors|
  {
    seq(|fors|, i requires 0 <= i < |fors| => "for=" + fors[i])
  }

  function Display(h: Header): string {
    "by=" + h.byNode + ";" + Join(Labelled(h.fors), ", ") + ";host=" + h.host + ";proto=" + h.proto
  }

  function Unlabelled(pieces: seq<string>): (r: seq<string>)
    ensures |r| == |pieces|
  {
    seq(|pieces|, i requires 0 <= i < |pieces| => Without(pieces[i], "for="))
  }

  /** The entries that `from_info` finds in an incoming header. */
  function Received(forwarded: string): seq<string> {
    match Find(forwarded, "for=")
    case None => []
    case Some(start) => Unlabelled(Split(UpTo(forwarded[start..], ';'), ','))
  }

  datatype Hop = Hop(peer: string, byNode: string, host: string, proto: string)

  /** The header of a hop that received `forwarded`. */
  function Info(hop: Hop, forwarded: string): Header {
    Header(hop.byNode, Received(forwarded) + [hop.peer], hop.host, hop.proto)
  }

  method FromInfo(peer: string, byNode: string, forwarded: string, host: string, proto: string) returns (h: Header)
    ensures h == Info(Hop(peer, byNode, host, proto), forwarded)
    ensures h.byNode == byNode && h.host == host && h.proto == proto
    ensures h.fors == Received(forwarded) + [peer]
  {
    var forStart := Find(forwarded, "for=");
    var fors: seq<string> := [];
    if forStart.Some? {
      var pieces := Split(UpTo(forwarded[forStart.value..], ';'), ',');
      for i := 0 to |pieces|
        invariant fors == Unlabelled(pieces)[..i]
      {
        fors := fors + [Without(pieces[i], "for=")];
      }
    }
    fors := fors + [peer];
    h := Header(byNode, fors, host, proto);
  }

  // ---------------------------------------------------------------------------------------------
  // Reading back one hop
  // ---------------------------------------------------------------------------------------------

  ghost predicate Absent(s: string, p: string) {
    forall i :: 0 <= i <= |s| ==> !StartsWith(s[i..], p)
  }

  /** An entry that the syntax cannot confuse: no separator and no label inside. */
  ghost predicate Plain(s: string) {
    ',' !in s && ';' !in s && Absent(s, "for=")
  }

  lemma {:induction false} AbsentBehind(prefix: string, s: string, p: string)
    requires p != [] && p[0] !in prefix && Absent(s, p)
    ensures Absent(prefix + s, p)
  {
    var all, n := prefix + s, |prefix|;
    forall i | 0 <= i <= |all| ensures !StartsWith(all[i..], p) {
      if n <= i {
        assert all[i..] == s[i - n..];
      } else {
        assert all[i..][0] == prefix[i];
      }
    }
  }

  /** Nothing that holds `c` can stand across a `c`. */
  lemma {:induction false} NoStartAcross(a: string, c: char, rest: string, p: string)
    requires c !in p && !StartsWith(a, p)
    ensures !StartsWith(a + [c] + rest, p)
  {
    var all := a + [c] + rest;
    if |p| <= |a| {
      assert all[..|p|] == a[..|p|];
    } else if |p| <= |all| {
      assert all[..|p|][|a|] == c;
    }
  }

  lemma {:induction false} FindBehind(a: string, c: char, rest: string, p: string)
    requires p != [] && c !in p && Absent(a, p) && StartsWith(rest, p)
    ensures Find(a + [c] + rest, p) == Some(|a| + 1)
  {
    assert a[0..] == a;
    NoStartAcross(a, c, rest, p);
    var all := a + [c] + rest;
    if a == [] {
      assert all[1..] == rest;
      assert Find(rest, p) == Some(0);
    } else {
      assert all[1..] == a[1..] + [c] + rest;
      forall i | 0 <= i <= |a[1..]| ensures !StartsWith(a[1..][i..], p) {
        assert a[1..][i..] == a[i + 1..];
      }
      FindBehind(a[1..], c, rest, p);
    }
  }

  lemma {:induction false} UpToConcat(a: string, b: string, c: char)
    requires c !in a
    ensures UpTo(a + [c] + b, c) == a
  {
    if a != [] {
      assert (a + [c] + b)[1..] == a[1..] + [c] + b;
      UpToConcat(a[1..], b, c);
    }
  }

  lemma {:induction false} SplitNone(a: string, c: char)
    requires c !in a
    ensures Split(a, c) == [a]
  {
    if a != [] {
      SplitNone(a[1..], c);
      assert [a[0]] + a[1..] == a;
    }
  }

  lemma {:induction false} SplitConcat(a: string, b: string, c: char)
    requires c !in a
    ensures Split(a + [c] + b, c) == [a] + Split(b, c)
  {
    if a == [] {
      assert (a + [c] + b)[1..] == b;
    } else {
      var s := a + [c] + b;
      assert s[1..] == a[1..] + [c] + b;
      SplitConcat(a[1..], b, c);
      assert Split(s[1..], c) == [a[1..]] + Split(b, c);
      assert [s[0]] + a[1..] == a;
    }
  }

  lemma {:induction false} WithoutAbsent(s: string, p: string)
    requires p != [] && Absent(s, p)
    ensures Without(s, p) == s
  {
    assert s[0..] == s;
    if s != [] {
      forall i | 0 <= i <= |s[1..]| ensures !StartsWith(s[1..][i..], p) {
        assert s[1..][i..] == s[i + 1..];
      }
      WithoutAbsent(s[1..], p);
    }
  }

  /** The first label in a string is taken off, and so are those behind it. */
  lemma {:induction false} WithoutLabel(a: string, b: string)
    requires Absent(a, "for=")
    ensures Without(a + "for=" + b, "for=") == a + Without(b, "for=")
  {
    var s := a + "for=" + b;
    assert a[0..] == a;
    if a == [] {
      assert s[..4] == "for=" && s[4..] == b;
    } else {
      NoLabelAcross(a, b);
      assert s[1..] == a[1..] + "for=" + b;
      forall i | 0 <= i <= |a[1..]| ensures !StartsWith(a[1..][i..], "for=") {
        assert a[1..][i..] == a[i + 1..];
      }
      WithoutLabel(a[1..], b);
    }
  }

  /** No label starts before one and ends inside it. */
  lemma {:induction false} NoLabelAcross(a: string, b: string)
    requires a != [] && !StartsWith(a, "for=")
    ensures !StartsWith(a + "for=" + b, "for=")
  {
    var s := a + "for=" + b;
    if |a| < 4 {
      assert s[|a|] == 'f' && s[..4][|a|] == s[|a|];
    } else {
      assert s[..4] == a[..4];
    }
  }

  /** A label, behind a space or not, is taken off; the space stays. */
  lemma {:induction false} UnlabelOne(entry: string)
    requires Absent(entry, "for=")
    ensures Without("for=" + entry, "for=") == entry
    ensures Without(" for=" + entry, "for=") == " " + entry
  {
    var labelled := "for=" + entry;
    assert labelled[..4] == "for=" && labelled[4..] == entry;
    WithoutAbsent(entry, "for=");
    var spaced := " for=" + entry;
    assert spaced[0] == ' ' && spaced[1..] == labelled;
    assert spaced[..4][0] != "for="[0];
  }

  /** The entries as the next hop reads them: every one but the first gains the space of the separator. */
  function Shifted(fors: seq<string>): (r: seq<string>)
    ensures |r| == |fors|
  {
    seq(|fors|, i requires 0 <= i < |fors| => if i == 0 then fors[0] else " " + fors[i])
  }

  function Spaced(fors: seq<string>): (r: seq<string>)
    ensures |r| == |fors|
  {
    seq(|fors|, i requires 0 <= i < |fors| => " " + fors[i])
  }

  ghost predicate AllPlain(fors: seq<string>) {
    forall i :: 0 <= i < |fors| ==> Plain(fors[i])
  }

  lemma {:induction false} JoinSpaced(first: string, rest: seq<string>)
    requires rest != []
    ensures Join([first] + rest, ", ") == first + [','] + Join([" " + rest[0]] + rest[1..], ", ")
  {
    assert ([first] + rest)[1..] == rest;
    SpaceFirst(rest);
    assert first + ", " + Join(rest, ", ") == first + [','] + (" " + Join(rest, ", "));
  }

  /** Splitting the printed list gives its labels, all but the first behind a space. */
  lemma {:induction false} SplitPrinted(first: string, rest: seq<string>)
    requires ',' !in first && forall i :: 0 <= i < |rest| ==> ',' !in rest[i]
    ensures Split(Join([first] + rest, ", "), ',') == [first] + Spaced(rest)
    decreases |rest|
  {
    if rest == [] {
      SplitNone(first, ',');
    } else {
      JoinSpaced(first, rest);
      SplitConcat(first, Join([" " + rest[0]] + rest[1..], ", "), ',');
      SplitPrinted(" " + rest[0], rest[1..]);
      assert [" " + rest[0]] + Spaced(rest[1..]) == Spaced(rest);
    }
  }

  lemma {:induction false} SpaceFirst(parts: seq<string>)
    requires parts != []
    ensures Join([" " + parts[0]] + parts[1..], ", ") == " " + Join(parts, ", ")
  {
    var spaced := [" " + parts[0]] + parts[1..];
    assert spaced[1..] == parts[1..];
  }

  lemma {:induction false} JoinAvoids(parts: seq<string>, sep: string, c: char)
    requires c !in sep && forall i :: 0 <= i < |parts| ==> c !in parts[i]
    ensures c !in Join(parts, sep)
  {
    if |parts| > 1 {
      JoinAvoids(parts[1..], sep, c);
    }
  }

  /** The first label of a printed header is the first entry's: the interface holds none, and none can
  stand across its ends. */
  lemma {:induction false} FirstLabel(byNode: string, rest: string, name: string)
    requires name != [] && ';' !in name && name[0] !in "by="
    requires Absent(byNode, name) && StartsWith(rest, name)
    ensures Find("by=" + byNode + [';'] + rest, name) == Some(|byNode| + 4)
  {
    AbsentBehind("by=", byNode, name);
    FindBehind("by=" + byNode, ';', rest, name);
  }

  lemma {:induction false} PrintedListIsClean(fors: seq<string>)
    requires AllPlain(fors) && fors != []
    ensures var list := Join(Labelled(fors), ", ");
      ';' !in list && StartsWith(list, "for=")
    ensures Split(Join(Labelled(fors), ", "), ',') == Pieces(fors)
  {
    var labels := Labelled(fors);
    assert labels == [labels[0]] + labels[1..];
    JoinAvoids(labels, ", ", ';');
    SplitPrinted(labels[0], labels[1..]);
    assert labels[0][..4] == "for=";
  }

  /** The pieces that a printed list splits into. */
  function Pieces(fors: seq<string>): (r: seq<string>)
    requires fors != []
    ensures |r| == |fors|
  {
    [Labelled(fors)[0]] + Spaced(Labelled(fors)[1..])
  }

  lemma {:induction false} PieceAt(fors: seq<string>, i: nat)
    requires i < |fors|
    ensures Pieces(fors)[i] == if i == 0 then "for=" + fors[0] else " for=" + fors[i]
  {
    if i > 0 {
      assert Pieces(fors)[i] == " " + Labelled(fors)[i];
      assert " " + ("for=" + fors[i]) == " for=" + fors[i];
    }
  }

  lemma {:induction false} UnlabelPiece(fors: seq<string>, i: nat)
    requires i < |fors| && Absent(fors[i], "for=")
    ensures Without(Pieces(fors)[i], "for=") == Shifted(fors)[i]
  {
    PieceAt(fors, i);
    UnlabelOne(fors[i]);
  }

  lemma {:induction false} UnlabelAll(fors: seq<string>)
    requires fors != [] && AllPlain(fors)
    ensures Unlabelled(Pieces(fors)) == Shifted(fors)
  {
    forall i | 0 <= i < |fors| ensures Without(Pieces(fors)[i], "for=") == Shifted(fors)[i] {
      UnlabelPiece(fors, i);
    }
  }

  /** What `from_info` reads of any header whose list `list` stands between the interface and a `;`. */
  lemma {:induction false} ReadsTheList(byNode: string, list: string, suffix: string)
    requires Absent(byNode, "for=") && StartsWith(list, "for=") && ';' !in list
    ensures Received("by=" + byNode + [';'] + (list + [';'] + suffix)) == Unlabelled(Split(list, ','))
  {
    var rest := list + [';'] + suffix;
    assert rest[..4] == list[..4];
    FirstLabel(byNode, rest, "for=");
    var all := "by=" + byNode + [';'] + rest;
    assert all[|byNode| + 4..] == rest;
    UpToConcat(list, suffix, ';');
  }

  /** What one hop printed, the next reads back: every entry, in order, all but the first one space
  longer. The interface may hold anything but a label, host and protocol anything at all. */
  lemma {:induction false} HopReadsBack(h: Header)
    requires h.fors != [] && AllPlain(h.fors) && Absent(h.byNode, "for=")
    ensures Received(Display(h)) == Shifted(h.fors)
  {
    var list := Join(Labelled(h.fors), ", ");
    var suffix := "host=" + h.host + ";proto=" + h.proto;
    PrintedListIsClean(h.fors);
    ReadsTheList(h.byNode, list, suffix);
    PrintedShape(h, list, suffix);
    UnlabelAll(h.fors);
  }

  lemma {:induction false} PrintedShape(h: Header, list: string, suffix: string)
    requires list == Join(Labelled(h.fors), ", ") && suffix == "host=" + h.host + ";proto=" + h.proto
    ensures Display(h) == "by=" + h.byNode + [';'] + (list + [';'] + suffix)
  {
    assert ";host=" + h.host + ";proto=" + h.proto == [';'] + suffix;
  }

  // ---------------------------------------------------------------------------------------------
  // Any number of hops
  // ---------------------------------------------------------------------------------------------

  /** What the last of the hops sends on; the first of them received no header. */
  function Chain(hops: seq<Hop>): string {
    if hops == [] then "" else Display(LastInfo(hops))
  }

  function LastInfo(hops: seq<Hop>): Header
    requires hops != []
    decreases |hops|, 0
  {
    Info(hops[|hops| - 1], if |hops| == 1 then "" else Display(LastInfo(hops[..|hops| - 1])))
  }

  /** What the last hop sends on names its own interface, host and protocol, around the list of entries. */
  lemma {:induction false} ChainNamesLastHop(hops: seq<Hop>)
    requires hops != []
    ensures var h, list := hops[|hops| - 1], Join(Labelled(LastInfo(hops).fors), ", ");
      Chain(hops) == "by=" + h.byNode + ";" + list + ";host=" + h.host + ";proto=" + h.proto
  {
  }

  /** The header that a first hop sends. */
  lemma {:induction false} FirstHopSends(hop: Hop)
    ensures Chain([hop]) == "by=" + hop.byNode + ";for=" + hop.peer + ";host=" + hop.host + ";proto=" + hop.proto
  {
    assert LastInfo([hop]).fors == [hop.peer] by {
      assert Find("", "for=") == None;
    }
    ChainNamesLastHop([hop]);
    assert "by=" + hop.byNode + ";" + ("for=" + hop.peer) == "by=" + hop.byNode + ";for=" + hop.peer;
  }

  ghost predicate PlainHops(hops: seq<Hop>) {
    forall i :: 0 <= i < |hops| ==> Plain(hops[i].peer) && Absent(hops[i].byNode, "for=")
  }

  function Spaces(n: nat): string {
    if n == 0 then "" else " " + Spaces(n - 1)
  }

  lemma {:induction false} SpacedIsPlain(s: string)
    requires Plain(s)
    ensures Plain(" " + s)
  {
    AbsentBehind(" ", s, "for=");
  }

  /** The entries of a chain: entry 0 as its peer gave it, entry i behind n-1-i spaces. */
  ghost predicate ChainEntries(fors: seq<string>, hops: seq<Hop>) {
    && |fors| == |hops| && AllPlain(fors)
    && forall i :: 0 <= i < |hops| ==> fors[i] == Spaces(if i == 0 then 0 else |hops| - 1 - i) + hops[i].peer
  }

  lemma {:induction false} ChainGrows(fors: seq<string>, hops: seq<Hop>, hop: Hop)
    requires hops != [] && ChainEntries(fors, hops) && Plain(hop.peer)
    ensures ChainEntries(Shifted(fors) + [hop.peer], hops + [hop])
  {
    var after, all := Shifted(fors) + [hop.peer], hops + [hop];
    forall i | 0 <= i < |all|
      ensures Plain(after[i]) && after[i] == Spaces(if i == 0 then 0 else |all| - 1 - i) + all[i].peer
    {
      if 0 < i < |hops| {
        SpacedIsPlain(fors[i]);
        assert " " + (Spaces(|hops| - 1 - i) + hops[i].peer) == (" " + Spaces(|hops| - 1 - i)) + hops[i].peer;
      }
    }
  }

  lemma {:induction false} LastReadsBack(hops: seq<Hop>)
    requires |hops| > 1 && PlainHops(hops)
    requires var before := hops[..|hops| - 1]; ChainEntries(LastInfo(before).fors, before)
    ensures LastInfo(hops).fors == Shifted(LastInfo(hops[..|hops| - 1]).fors) + [hops[|hops| - 1].peer]
  {
    HopReadsBack(LastInfo(hops[..|hops| - 1]));
  }

  /** The chain of clients survives any number of hops: after n of them the header has exactly n entries
  in order; the first is the first peer as it was, and the i-th one after it is its peer behind n-1-i
  spaces, one for every time it was read back. */
  lemma {:induction false} HopChainSurvives(hops: seq<Hop>)
    requires hops != [] && PlainHops(hops)
    ensures ChainEntries(LastInfo(hops).fors, hops)
    decreases |hops|
  {
    var n := |hops|;
    if n == 1 {
      assert Find("", "for=") == None;
      assert LastInfo(hops).fors == [hops[0].peer];
    } else {
      var before, last := hops[..n - 1], hops[n - 1];
      assert hops == before + [last];
      HopChainSurvives(before);
      LastReadsBack(hops);
      ChainGrows(LastInfo(before).fors, before, last);
    }
  }

  // ---------------------------------------------------------------------------------------------
  // Where the header's own syntax is richer than the reader
  // ---------------------------------------------------------------------------------------------

  lemma {:induction false} FindKeepsFirst(a: string, b: string, p: string)
    requires Find(a, p).Some? && p != []
    ensures Find(a + b, p) == Find(a, p)
  {
    assert (a + b)[..|p|] == a[..|p|];
    if !StartsWith(a, p) {
      assert (a + b)[1..] == a[1..] + b;
      FindKeepsFirst(a[1..], b, p);
    }
  }

  lemma {:induction false} UpToStops(a: string, b: string, c: char)
    ensures UpTo(a + [c] + b, c) == UpTo(a, c)
  {
    if a != [] {
      assert (a + [c] + b)[1..] == a[1..] + [c] + b;
      UpToStops(a[1..], b, c);
    }
  }

  lemma {:induction false} FindBefore(read: string, tail: string, name: string)
    requires Find(read, name).Some? && name != []
    ensures Find(read + [';'] + tail, name) == Find(read, name)
  {
    assert read + [';'] + tail == read + ([';'] + tail);
    FindKeepsFirst(read, [';'] + tail, name);
  }

  lemma {:induction false} UpToBefore(read: string, tail: string, start: nat)
    requires start <= |read|
    ensures UpTo((read + [';'] + tail)[start..], ';') == UpTo(read[start..], ';')
  {
    assert (read + [';'] + tail)[start..] == read[start..] + [';'] + tail;
    UpToStops(read[start..], tail, ';');
  }

  /** The reader stops at the first `;` behind the first name, whatever follows. */
  lemma {:induction false} NothingReadBehind(read: string, tail: string)
    requires Find(read, "for=").Some?
    ensures Received(read + [';'] + tail) == Received(read)
  {
    FindBefore(read, tail, "for=");
    UpToBefore(read, tail, Find(read, "for=").value);
  }

  /** An element of the list as RFC 7239 has it, section 4: a node, and further parameters, each of them
  behind a `;`. */
  datatype Element = Element(node: string, params: string)

  ghost predicate PlainElement(e: Element) {
    Plain(e.node) && (e.params == "" || e.params[0] == ';')
  }

  ghost predicate AllPlainElements(es: seq<Element>) {
    forall i :: 0 <= i < |es| ==> PlainElement(es[i])
  }

  function Nodes(es: seq<Element>): (r: seq<string>)
    ensures |r| == |es|
  {
    seq(|es|, i requires 0 <= i < |es| => es[i].node)
  }

  function Written(e: Element): string {
    "for=" + e.node + e.params
  }

  function List(es: seq<Element>): string {
    if es == [] then ""
    else if |es| == 1 then Written(es[0])
    else Written(es[0]) + ", " + List(es[1..])
  }

  /** How many elements there are up to the first with parameters, that one included. */
  function ReadCount(es: seq<Element>): (n: nat)
    ensures n <= |es| && (es != [] ==> n > 0)
  {
    if es == [] then 0 else if es[0].params != "" then 1 else 1 + ReadCount(es[1..])
  }

  /** Where that count ends. */
  lemma {:induction false} ReadCountIsFirst(es: seq<Element>)
    ensures forall i :: 0 <= i < ReadCount(es) - 1 ==> es[i].params == ""
    ensures ReadCount(es) < |es| ==> es[ReadCount(es) - 1].params != ""
  {
    if es != [] && es[0].params == "" {
      ReadCountIsFirst(es[1..]);
    }
  }

  lemma {:induction false} UpToPast(a: string, b: string, c: char)
    requires c !in a
    ensures UpTo(a + b, c) == a + UpTo(b, c)
  {
    if a == [] {
      assert a + b == b;
    } else {
      assert (a + b)[1..] == a[1..] + b;
      UpToPast(a[1..], b, c);
    }
  }

  lemma {:induction false} UpToParams(params: string)
    requires params == "" || params[0] == ';'
    ensures UpTo(params, ';') == ""
  {
  }

  /** The labels of a list that starts with an element without parameters. */
  lemma {:induction false} LabelsFrom(es: seq<Element>, n: nat)
    requires 0 < n < |es|
    ensures Join(Labelled(Nodes(es[..n + 1])), ", ")
         == "for=" + es[0].node + ", " + Join(Labelled(Nodes(es[1..][..n])), ", ")
  {
    var all, rest := Labelled(Nodes(es[..n + 1])), Labelled(Nodes(es[1..][..n]));
    assert all[1..] == rest;
  }

  lemma {:induction false} UpToFirstNode(es: seq<Element>)
    requires es != [] && PlainElement(es[0]) && (es[0].params != "" || |es| == 1)
    ensures UpTo(List(es), ';') == "for=" + es[0].node
  {
    var first, tail := "for=" + es[0].node, if |es| == 1 then "" else ", " + List(es[1..]);
    assert List(es) == first + (es[0].params + tail);
    UpToPast(first, es[0].params + tail, ';');
    UpToParams(es[0].params + tail);
  }

  lemma {:induction false} UpToNextNode(es: seq<Element>)
    requires |es| > 1 && PlainElement(es[0]) && es[0].params == ""
    ensures UpTo(List(es), ';') == "for=" + es[0].node + ", " + UpTo(List(es[1..]), ';')
  {
    var first := "for=" + es[0].node + ", ";
    assert List(es) == first + List(es[1..]);
    UpToPast(first, List(es[1..]), ';');
  }

  /** Up to its first `;` a list is the printed list of the nodes read. */
  lemma {:induction false} UpToReadsNodes(es: seq<Element>)
    requires es != [] && AllPlainElements(es)
    ensures UpTo(List(es), ';') == Join(Labelled(Nodes(es[..ReadCount(es)])), ", ")
  {
    if es[0].params != "" || |es| == 1 {
      UpToFirstNode(es);
      assert Labelled(Nodes(es[..1])) == ["for=" + es[0].node];
    } else {
      UpToReadsNodes(es[1..]);
      UpToNextNode(es);
      LabelsFrom(es, ReadCount(es[1..]));
    }
  }

  /** Of a list that opens a header, the reader takes the elements up to the first with parameters. */
  lemma {:induction false} ListReadsUpToParams(es: seq<Element>)
    requires AllPlainElements(es)
    ensures Received(List(es)) == Shifted(Nodes(es[..ReadCount(es)]))
  {
    if es == [] {
      assert Find("", "for=") == None;
    } else {
      var fors := Nodes(es[..ReadCount(es)]);
      assert StartsWith(List(es), "for=") by {
        assert List(es)[..4] == "for=";
      }
      assert List(es)[0..] == List(es);
      UpToReadsNodes(es);
      PrintedListIsClean(fors);
      UnlabelAll(fors);
    }
  }

  /** So all elements are read if and only if none but the last has parameters. */
  lemma {:induction false} AllElementsReadIff(es: seq<Element>)
    requires AllPlainElements(es)
    ensures |Received(List(es))| == |es| <==> forall i :: 0 <= i < |es| - 1 ==> es[i].params == ""
  {
    ListReadsUpToParams(es);
    ReadCountIsFirst(es);
  }

  /** The second of two clients is lost, and the first is read without its parameter. */
  lemma {:induction false} LaterElementsAreLost()
    ensures Received("for=a;proto=http, for=b") == ["a"]
  {
    var es := [Element("a", ";proto=http"), Element("b", "")];
    assert List(es[1..]) == "for=b";
    assert List(es) == "for=a;proto=http, for=b";
    ListReadsUpToParams(es);
  }
}
