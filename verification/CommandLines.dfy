/**
 Command lines written out: what a user means by one, and that the scan of Getopt reads exactly
 that back. Nothing here decodes; a line is put together from its parts, and every line is.
 */
module CommandLines {
  import opened Getopt

  // How an option that may have an argument is given: without it, in the same element, or in the
  // next one.
  datatype Given = Omitted | Attached(text: string) | Separate(text: string)

  datatype Last = NoLast | Last(c: char, arg: Given)

  // A word, or an element of flags that may end in an option with an argument.
  datatype Item = Word(text: string) | Element(flags: string, last: Last)

  // What follows the items: nothing, a double dash and its words, or an element whose last option
  // lacks its argument.
  datatype Tail = Nothing | Dashes(words: seq<string>) | Lacking(flags: string, c: char)

  // ---------------------------------------------------------------- writing

  function WriteItem(item: Item): (line: seq<string>)
    ensures line != []
  {
    match item
    case Word(text) => [text]
    case Element(flags, NoLast) => ["-" + flags]
    case Element(flags, Last(c, Omitted)) => ["-" + flags + [c]]
    case Element(flags, Last(c, Attached(text))) => ["-" + flags + [c] + text]
    case Element(flags, Last(c, Separate(text))) => ["-" + flags + [c], text]
  }

  function WriteTail(tail: Tail): seq<string> {
    match tail
    case Nothing => []
    case Dashes(words) => ["--"] + words
    case Lacking(flags, c) => ["-" + flags + [c]]
  }

  function Write(items: seq<Item>, tail: Tail): seq<string> {
    if items == [] then WriteTail(tail) else WriteItem(items[0]) + Write(items[1..], tail)
  }

  // A flag, or a character that is no option.
  predicate Simple(optstring: string, c: char) {
    c == ':' || c !in optstring || Declares(optstring, c, 0)
  }

  predicate AllSimple(optstring: string, flags: string) {
    forall k :: 0 <= k < |flags| ==> Simple(optstring, flags[k])
  }

  // The parts mean what they say: words look like no option, and arguments are allowed.
  predicate Proper(optstring: string, item: Item) {
    match item
    case Word(text) => text == "" || text[0] != '-' || text == "-"
    case Element(flags, last) =>
      && AllSimple(optstring, flags) && WriteItem(item)[0] != "--"
      && match last
         case NoLast => flags != ""
         case Last(c, Omitted) => Declares(optstring, c, 2)
         case Last(c, Attached(text)) => text != "" && (Declares(optstring, c, 1) || Declares(optstring, c, 2))
         case Last(c, Separate(_)) => Declares(optstring, c, 1)
  }

  predicate ProperTail(optstring: string, tail: Tail) {
    tail.Lacking? ==>
      AllSimple(optstring, tail.flags) && Declares(optstring, tail.c, 1) && "-" + tail.flags + [tail.c] != "--"
  }

  predicate ProperLine(optstring: string, items: seq<Item>, tail: Tail) {
    ProperTail(optstring, tail) && forall k :: 0 <= k < |items| ==> Proper(optstring, items[k])
  }

  // ---------------------------------------------------------------- meaning

  function FlagOpt(optstring: string, c: char): Opt {
    if Declares(optstring, c, 0) then Opt(c, None) else Opt('?', None)
  }

  function FlagOpts(optstring: string, flags: string): (opts: seq<Opt>)
    ensures |opts| == |flags|
  {
    seq(|flags|, k requires 0 <= k < |flags| => FlagOpt(optstring, flags[k]))
  }

  function LastOpts(last: Last): seq<Opt> {
    match last
    case NoLast => []
    case Last(c, Omitted) => [Opt(c, None)]
    case Last(c, Attached(text)) => [Opt(c, Some(text))]
    case Last(c, Separate(text)) => [Opt(c, Some(text))]
  }

  function ItemOpts(optstring: string, item: Item): seq<Opt> {
    match item
    case Word(_) => []
    case Element(flags, last) => FlagOpts(optstring, flags) + LastOpts(last)
  }

  function TailOpts(optstring: string, tail: Tail): seq<Opt> {
    match tail
    case Lacking(flags, c) =>
      FlagOpts(optstring, flags) + [Opt(if optstring != "" && optstring[0] == ':' then ':' else '?', None)]
    case _ => []
  }

  // The options of a line, its option elements with their arguments, and its other arguments.
  function Opts(optstring: string, items: seq<Item>, tail: Tail): seq<Opt> {
    if items == [] then TailOpts(optstring, tail)
    else ItemOpts(optstring, items[0]) + Opts(optstring, items[1..], tail)
  }

  function Elements(items: seq<Item>, tail: Tail): seq<string> {
    if items == [] then
      match tail
      case Nothing => []
      case Dashes(_) => ["--"]
      case Lacking(_, _) => WriteTail(tail)
    else (if items[0].Word? then [] else WriteItem(items[0])) + Elements(items[1..], tail)
  }

  function Words(items: seq<Item>, tail: Tail): seq<string> {
    if items == [] then if tail.Dashes? then tail.words else []
    else (if items[0].Word? then [items[0].text] else []) + Words(items[1..], tail)
  }

  // ---------------------------------------------------------------- reading back

  // What a scan has found, as texts.
  predicate Reads(a: seq<string>, s: Scanned, opts: seq<Opt>, elements: seq<string>, words: seq<string>) {
    && Within(s.options, |a|) && Within(s.others, |a|)
    && s.opts == opts && Pick(a, s.options) == elements && Pick(a, s.others) == words
  }

  lemma ReadsThen(a: seq<string>, s: Scanned, t: Scanned, opts: seq<Opt>, elements: seq<string>, words: seq<string>,
                  opts': seq<Opt>, elements': seq<string>, words': seq<string>)
    requires Reads(a, s, opts, elements, words) && Reads(a, t, opts', elements', words')
    ensures Reads(a, s.Then(t), opts + opts', elements + elements', words + words')
  {
    PickJoin(a, s.options, t.options);
    PickJoin(a, s.others, t.others);
    hide Pick, Within;
  }

  lemma NoInterval(i: nat)
    ensures Interval(i, i) == [] && Interval(i, i + 1) == [i]
  {
  }

  lemma FlagOptsNext(optstring: string, flags: string, c: char)
    ensures FlagOpts(optstring, flags + [c]) == FlagOpts(optstring, flags) + [FlagOpt(optstring, c)]
  {
  }

  lemma SimpleParts(optstring: string, flags: string, c: char)
    requires AllSimple(optstring, flags + [c])
    ensures AllSimple(optstring, flags) && Simple(optstring, c)
  {
    assert (flags + [c])[|flags|] == c;
    assert forall k :: 0 <= k < |flags| ==> (flags + [c])[k] == flags[k];
  }

  // One flag, or character that is no option, among those left of an element.
  lemma FlagScans(optstring: string, a: seq<string>, i: nat, c: char, rest: string)
    requires i < |a| && Simple(optstring, c)
    ensures ScanFrom(optstring, a, i, [c] + rest)
         == Scanned([FlagOpt(optstring, c)], if rest == "" then [i] else [], [])
              .Then(ScanFrom(optstring, a, if rest == "" then i + 1 else i, rest))
  {
    hide *;
    SimpleDecodes(optstring, a, i, c, rest);
    PendingIs(a, i, [c] + rest);
    assert [c] + rest != "";
    ScanDecoded(optstring, a, i, [c] + rest);
    NoInterval(i);
  }

  lemma PendingIs(a: seq<string>, i: nat, rest: string)
    requires i < |a| && rest != ""
    ensures Pending(a, i, rest) == rest
  {
  }

  lemma SimpleDecodes(optstring: string, a: seq<string>, i: nat, c: char, rest: string)
    requires i < |a| && Simple(optstring, c)
    ensures Decode(optstring, a, i, [c] + rest) == Decoded(FlagOpt(optstring, c), rest, if rest == "" then 1 else 0)
  {
    hide Declares, Decode, KindOf;
    DecodesOption(optstring, a, i, c, rest);
    KindOfDeclared(optstring, c);
  }

  // Flags before others.
  lemma {:induction false} FlagsScan(optstring: string, a: seq<string>, i: nat, flags: string, rest: string)
    requires i < |a| && AllSimple(optstring, flags) && rest != ""
    ensures ScanFrom(optstring, a, i, flags + rest)
         == Scanned(FlagOpts(optstring, flags), [], []).Then(ScanFrom(optstring, a, i, rest))
  {
    if flags == "" {
      assert flags + rest == rest && FlagOpts(optstring, flags) == [];
      hide ScanFrom;
    } else {
      var front, c := flags[..|flags| - 1], flags[|flags| - 1];
      assert flags == front + [c] && flags + rest == front + ([c] + rest);
      hide *;
      SimpleParts(optstring, front, c);
      FlagsScan(optstring, a, i, front, [c] + rest);
      FlagScans(optstring, a, i, c, rest);
      FlagOptsNext(optstring, front, c);
      OptsThen(FlagOpts(optstring, front), FlagOpt(optstring, c), [], ScanFrom(optstring, a, i, rest));
    }
  }

  lemma OptsThen(opts: seq<Opt>, opt: Opt, indices: seq<nat>, t: Scanned)
    ensures Scanned(opts, [], []).Then(Scanned([opt], indices, []).Then(t))
         == Scanned(opts + [opt], indices, []).Then(t)
  {
  }

  // Flags up to the end of their element.
  lemma FlagsEnd(optstring: string, a: seq<string>, i: nat, flags: string)
    requires i < |a| && AllSimple(optstring, flags) && flags != ""
    ensures ScanFrom(optstring, a, i, flags)
         == Scanned(FlagOpts(optstring, flags), [i], []).Then(ScanFrom(optstring, a, i + 1, ""))
  {
    var front, c := flags[..|flags| - 1], flags[|flags| - 1];
    assert flags == front + [c] && [c] + "" == [c];
    hide *;
    SimpleParts(optstring, front, c);
    FlagsScan(optstring, a, i, front, [c]);
    FlagScans(optstring, a, i, c, "");
    FlagOptsNext(optstring, front, c);
    OptsThen(FlagOpts(optstring, front), FlagOpt(optstring, c), [i], ScanFrom(optstring, a, i + 1, ""));
  }

  // The last option of an element, which takes so many elements in all.
  lemma LastScans(optstring: string, a: seq<string>, i: nat, flags: string, c: char, text: string, d: Decoded)
    requires i < |a| && AllSimple(optstring, flags)
    requires d == Decode(optstring, a, i, [c] + text) && d.rest == ""
    ensures ScanFrom(optstring, a, i, flags + [c] + text)
         == Scanned(FlagOpts(optstring, flags) + [d.opt], Interval(i, i + d.consumed), [])
              .Then(ScanFrom(optstring, a, i + d.consumed, ""))
  {
    hide *;
    assert flags + [c] + text == flags + ([c] + text) && [c] + text != "";
    PendingIs(a, i, [c] + text);
    ScanDecoded(optstring, a, i, [c] + text);
    FlagsScan(optstring, a, i, flags, [c] + text);
    OptsThen(FlagOpts(optstring, flags), d.opt, Interval(i, i + d.consumed),
             ScanFrom(optstring, a, i + d.consumed, ""));
  }

  // An option element is scanned like its characters.
  lemma DashScans(optstring: string, a: seq<string>, i: nat, chars: string)
    requires i < |a| && a[i] == "-" + chars && chars != "" && a[i] != "--"
    ensures ScanFrom(optstring, a, i, "") == ScanFrom(optstring, a, i, chars)
  {
    assert a[i][1..] == chars;
    ElementScans(optstring, a, NOTHING, i);
  }

  lemma DashJoins(flags: string, c: char, text: string)
    ensures "-" + flags + [c] + text == "-" + (flags + [c] + text)
    ensures "-" + flags + [c] == "-" + (flags + [c] + "") && [c] + "" == [c] && flags + [c] + text != ""
  {
  }

  // An element that ends in an option with its text, if any.
  lemma ElementEnds(optstring: string, a: seq<string>, i: nat, flags: string, c: char, text: string, d: Decoded)
    requires i < |a| && AllSimple(optstring, flags) && a[i] != "--"
    requires a[i] == "-" + flags + [c] + text || (text == "" && a[i] == "-" + flags + [c])
    requires d == Decode(optstring, a, i, [c] + text) && d.rest == ""
    ensures ScanFrom(optstring, a, i, "")
         == Scanned(FlagOpts(optstring, flags) + [d.opt], Interval(i, i + d.consumed), [])
              .Then(ScanFrom(optstring, a, i + d.consumed, ""))
  {
    hide *;
    DashJoins(flags, c, text);
    DashScans(optstring, a, i, flags + [c] + text);
    LastScans(optstring, a, i, flags, c, text, d);
  }

  // Where the parts of an item stand when it is written at position i.
  function ItemAt(optstring: string, item: Item, i: nat): Scanned {
    if item.Word? then Scanned([], [], [i])
    else Scanned(ItemOpts(optstring, item), Interval(i, i + |WriteItem(item)|), [])
  }

  lemma FlagItemScans(optstring: string, a: seq<string>, i: nat, flags: string)
    requires i < |a| && AllSimple(optstring, flags) && flags != "" && a[i] == "-" + flags && a[i] != "--"
    ensures ScanFrom(optstring, a, i, "")
         == ItemAt(optstring, Element(flags, NoLast), i).Then(ScanFrom(optstring, a, i + 1, ""))
  {
    assert FlagOpts(optstring, flags) + [] == FlagOpts(optstring, flags);
    NoInterval(i);
    hide ScanFrom, AllSimple, Interval, FlagOpts, Scanned.Then;
    DashScans(optstring, a, i, flags);
    FlagsEnd(optstring, a, i, flags);
  }

  lemma LastItemAt(optstring: string, i: nat, flags: string, c: char, arg: Given)
    ensures var item, k := Element(flags, Last(c, arg)), if arg.Separate? then 2 else 1;
            && |WriteItem(item)| == k
            && ItemAt(optstring, item, i)
            == Scanned(FlagOpts(optstring, flags) + LastOpts(Last(c, arg)), Interval(i, i + k), [])
  {
  }

  // How the last option of a proper item is decoded.
  lemma LastDecodes(optstring: string, a: seq<string>, i: nat, flags: string, c: char, arg: Given)
    requires Proper(optstring, Element(flags, Last(c, arg))) && i < |a|
    requires arg.Separate? ==> i + 1 < |a| && a[i + 1] == arg.text
    ensures var d := Decode(optstring, a, i, [c] + TextOf(arg));
            LastOpts(Last(c, arg)) == [d.opt] && d.rest == "" && d.consumed == if arg.Separate? then 2 else 1
    ensures AllSimple(optstring, flags)
  {
    hide AllSimple, Declares, Decode;
    DecodesOption(optstring, a, i, c, TextOf(arg));
  }

  function TextOf(arg: Given): string {
    if arg.Attached? then arg.text else ""
  }

  lemma LastWritten(optstring: string, flags: string, c: char, arg: Given)
    requires Proper(optstring, Element(flags, Last(c, arg)))
    ensures var first := WriteItem(Element(flags, Last(c, arg)))[0];
            && first != "--"
            && (first == "-" + flags + [c] + TextOf(arg) || (TextOf(arg) == "" && first == "-" + flags + [c]))
  {
    hide AllSimple, Declares;
  }

  lemma LastItemScans(optstring: string, a: seq<string>, i: nat, flags: string, c: char, arg: Given)
    requires Proper(optstring, Element(flags, Last(c, arg)))
    requires i + |WriteItem(Element(flags, Last(c, arg)))| <= |a| && a[i] == WriteItem(Element(flags, Last(c, arg)))[0]
    requires arg.Separate? ==> i + 1 < |a| && a[i + 1] == arg.text
    ensures ScanFrom(optstring, a, i, "")
         == ItemAt(optstring, Element(flags, Last(c, arg)), i)
              .Then(ScanFrom(optstring, a, i + |WriteItem(Element(flags, Last(c, arg)))|, ""))
  {
    hide *;
    LastItemAt(optstring, i, flags, c, arg);
    LastDecodes(optstring, a, i, flags, c, arg);
    LastWritten(optstring, flags, c, arg);
    ElementEnds(optstring, a, i, flags, c, TextOf(arg), Decode(optstring, a, i, [c] + TextOf(arg)));
  }

  lemma ItemParts(a: seq<string>, i: nat, item: Item)
    requires i + |WriteItem(item)| <= |a|
    requires forall k :: 0 <= k < |WriteItem(item)| ==> a[i + k] == WriteItem(item)[k]
    ensures a[i] == WriteItem(item)[0]
    ensures item.Element? && item.last.Last? && item.last.arg.Separate? ==>
      i + 1 < |a| && a[i + 1] == item.last.arg.text
  {
    assert a[i + 0] == WriteItem(item)[0];
    if item.Element? && item.last.Last? && item.last.arg.Separate? { assert a[i + 1] == WriteItem(item)[1]; }
  }

  lemma ItemScans(optstring: string, a: seq<string>, i: nat, item: Item)
    requires Proper(optstring, item) && i + |WriteItem(item)| <= |a|
    requires forall k :: 0 <= k < |WriteItem(item)| ==> a[i + k] == WriteItem(item)[k]
    ensures ScanFrom(optstring, a, i, "")
         == ItemAt(optstring, item, i).Then(ScanFrom(optstring, a, i + |WriteItem(item)|, ""))
  {
    hide ScanFrom, AllSimple, Interval, FlagOpts, Scanned.Then, Declares, ItemAt;
    ItemParts(a, i, item);
    match item
    case Word(_) => WordScans(optstring, a, i, item);
    case Element(flags, NoLast) => FlagItemScans(optstring, a, i, flags);
    case Element(flags, Last(c, arg)) => LastItemScans(optstring, a, i, flags, c, arg);
  }

  lemma WordScans(optstring: string, a: seq<string>, i: nat, item: Item)
    requires i < |a| && item.Word? && Proper(optstring, item) && a[i] == item.text
    ensures ScanFrom(optstring, a, i, "") == ItemAt(optstring, item, i).Then(ScanFrom(optstring, a, i + 1, ""))
  {
    ScanOther(optstring, a, i);
    hide ScanFrom;
  }

  lemma ItemReads(optstring: string, a: seq<string>, i: nat, item: Item)
    requires i + |WriteItem(item)| <= |a|
    requires forall k :: 0 <= k < |WriteItem(item)| ==> a[i + k] == WriteItem(item)[k]
    ensures Reads(a, ItemAt(optstring, item, i), ItemOpts(optstring, item),
                  if item.Word? then [] else WriteItem(item), if item.Word? then [item.text] else [])
  {
    var w := WriteItem(item);
    PickInterval(a, i, i + |w|);
    assert a[i..i + |w|] == w;
    assert item.Word? ==> a[i + 0] == item.text;
    hide WriteItem, ItemOpts;
  }

  lemma DashesRead(optstring: string, a: seq<string>, i: nat, words: seq<string>)
    requires i <= |a| && a[i..] == ["--"] + words
    ensures Reads(a, ScanFrom(optstring, a, i, ""), [], ["--"], words)
  {
    assert a[i] == a[i..][0] == "--" && a[i + 1..] == a[i..][1..] == words && a[i + 1..] == a[i + 1..|a|];
    ScanStops(optstring, a, i);
    PickInterval(a, i + 1, |a|);
    hide ScanFrom, Interval;
  }

  lemma LackingReads(optstring: string, a: seq<string>, i: nat, flags: string, c: char)
    requires i <= |a| && a[i..] == ["-" + flags + [c]] && ProperTail(optstring, Lacking(flags, c))
    ensures Reads(a, ScanFrom(optstring, a, i, ""), TailOpts(optstring, Lacking(flags, c)), ["-" + flags + [c]], [])
  {
    assert |a[i..]| == 1 && a[i] == a[i..][0] && i + 1 == |a|;
    hide *;
    LackingDecodes(optstring, a, i, flags, c);
    ElementEnds(optstring, a, i, flags, c, "", Decode(optstring, a, i, [c] + ""));
    ScanStops(optstring, a, |a|);
    NoInterval(i);
    ThenNothing(Scanned(TailOpts(optstring, Lacking(flags, c)), [i], []));
    OneElementReads(a, i, TailOpts(optstring, Lacking(flags, c)));
  }

  lemma LackingDecodes(optstring: string, a: seq<string>, i: nat, flags: string, c: char)
    requires i + 1 == |a| && a[i] == "-" + flags + [c] && ProperTail(optstring, Lacking(flags, c))
    ensures AllSimple(optstring, flags) && a[i] != "--"
    ensures var d := Decode(optstring, a, i, [c] + "");
            && d.rest == "" && d.consumed == 1
            && TailOpts(optstring, Lacking(flags, c)) == FlagOpts(optstring, flags) + [d.opt]
  {
    DeclaresSome(optstring, c);
    hide AllSimple, Declares, Decode, FlagOpts;
    DecodesOption(optstring, a, i, c, "");
  }

  lemma OneElementReads(a: seq<string>, i: nat, opts: seq<Opt>)
    requires i < |a|
    ensures Reads(a, Scanned(opts, [i], []), opts, [a[i]], [])
  {
    assert Pick(a, [i]) == [a[i]] && Pick(a, []) == [];
  }

  lemma TailReads(optstring: string, a: seq<string>, i: nat, tail: Tail)
    requires i <= |a| && a[i..] == WriteTail(tail) && ProperTail(optstring, tail)
    ensures Reads(a, ScanFrom(optstring, a, i, ""), Opts(optstring, [], tail), Elements([], tail), Words([], tail))
  {
    hide Reads, ScanFrom, AllSimple, FlagOpts, Declares, ProperTail;
    match tail
    case Nothing => NothingReads(optstring, a, i);
    case Dashes(words) => DashesRead(optstring, a, i, words);
    case Lacking(flags, c) => LackingReads(optstring, a, i, flags, c);
  }

  lemma NothingReads(optstring: string, a: seq<string>, i: nat)
    requires i <= |a| && a[i..] == []
    ensures Reads(a, ScanFrom(optstring, a, i, ""), [], [], [])
  {
    assert i == |a|;
    ScanStops(optstring, a, i);
    assert Pick(a, []) == [];
  }

  lemma DeclaresSome(optstring: string, c: char)
    requires Declares(optstring, c, 1)
    ensures optstring != ""
  {
  }

  lemma WriteNext(items: seq<Item>, tail: Tail, a: seq<string>, i: nat)
    requires items != [] && i <= |a| && a[i..] == Write(items, tail)
    ensures i + |WriteItem(items[0])| <= |a| && a[i + |WriteItem(items[0])|..] == Write(items[1..], tail)
    ensures forall k :: 0 <= k < |WriteItem(items[0])| ==> a[i + k] == WriteItem(items[0])[k]
  {
    var w, r := WriteItem(items[0]), Write(items[1..], tail);
    assert a[i..] == w + r;
    assert forall k :: 0 <= k < |w| ==> a[i + k] == a[i..][k];
    assert a[i + |w|..] == a[i..][|w|..] == r;
  }

  lemma ProperParts(optstring: string, items: seq<Item>, tail: Tail)
    requires ProperLine(optstring, items, tail) && items != []
    ensures Proper(optstring, items[0]) && ProperLine(optstring, items[1..], tail)
  {
  }

  lemma MeaningNext(optstring: string, items: seq<Item>, tail: Tail)
    requires items != []
    ensures Opts(optstring, items, tail) == ItemOpts(optstring, items[0]) + Opts(optstring, items[1..], tail)
    ensures Elements(items, tail)
         == (if items[0].Word? then [] else WriteItem(items[0])) + Elements(items[1..], tail)
    ensures Words(items, tail) == (if items[0].Word? then [items[0].text] else []) + Words(items[1..], tail)
  {
  }

  /** A line that has been written is read back: the scan finds its options in order, its option
      elements, and its words. */
  lemma {:induction false} LineReads(optstring: string, a: seq<string>, i: nat, items: seq<Item>, tail: Tail)
    requires i <= |a| && a[i..] == Write(items, tail) && ProperLine(optstring, items, tail)
    ensures Reads(a, ScanFrom(optstring, a, i, ""), Opts(optstring, items, tail), Elements(items, tail),
                  Words(items, tail))
    decreases |items|
  {
    hide *;
    if items == [] {
      NothingWritten(optstring, tail);
      TailReads(optstring, a, i, tail);
    } else {
      var next := i + |WriteItem(items[0])|;
      WriteNext(items, tail, a, i);
      ProperParts(optstring, items, tail);
      ItemScans(optstring, a, i, items[0]);
      ItemReads(optstring, a, i, items[0]);
      LineReads(optstring, a, next, items[1..], tail);
      OneMoreReads(optstring, a, i, items, tail, ScanFrom(optstring, a, next, ""));
    }
  }

  lemma NothingWritten(optstring: string, tail: Tail)
    ensures Write([], tail) == WriteTail(tail)
    ensures forall items :: items == [] && ProperLine(optstring, items, tail) ==> ProperTail(optstring, tail)
  {
  }

  lemma OneMoreReads(optstring: string, a: seq<string>, i: nat, items: seq<Item>, tail: Tail, t: Scanned)
    requires items != []
    requires Reads(a, ItemAt(optstring, items[0], i), ItemOpts(optstring, items[0]),
                   if items[0].Word? then [] else WriteItem(items[0]), if items[0].Word? then [items[0].text] else [])
    requires Reads(a, t, Opts(optstring, items[1..], tail), Elements(items[1..], tail), Words(items[1..], tail))
    ensures Reads(a, ItemAt(optstring, items[0], i).Then(t), Opts(optstring, items, tail), Elements(items, tail),
                  Words(items, tail))
  {
    hide *;
    MeaningNext(optstring, items, tail);
    ReadsThen(a, ItemAt(optstring, items[0], i), t, ItemOpts(optstring, items[0]),
              if items[0].Word? then [] else WriteItem(items[0]), if items[0].Word? then [items[0].text] else [],
              Opts(optstring, items[1..], tail), Elements(items[1..], tail), Words(items[1..], tail));
  }

  // ---------------------------------------------------------------- every line is written so

  // The flags that an element starts with.
  lemma {:induction false} SplitElement(optstring: string, chars: string) returns (flags: string, rest: string)
    ensures chars == flags + rest && AllSimple(optstring, flags)
    ensures rest != "" ==> Declares(optstring, rest[0], 1) || Declares(optstring, rest[0], 2)
  {
    hide *;
    if chars == "" {
      flags, rest := "", "";
      NoFlags(optstring);
    } else {
      SimpleOrNot(optstring, chars[0]);
      if Simple(optstring, chars[0]) {
        var more;
        more, rest := SplitElement(optstring, chars[1..]);
        flags := [chars[0]] + more;
        FlagBefore(optstring, chars[0], more);
        assert chars == [chars[0]] + (more + rest);
        assert [chars[0]] + (more + rest) == flags + rest;
      } else {
        flags, rest := "", chars;
        NoFlags(optstring);
      }
    }
  }

  lemma NoFlags(optstring: string)
    ensures AllSimple(optstring, "")
  {
  }

  lemma FlagBefore(optstring: string, c: char, flags: string)
    requires Simple(optstring, c) && AllSimple(optstring, flags)
    ensures AllSimple(optstring, [c] + flags)
  {
  }

  lemma SimpleOrNot(optstring: string, c: char)
    ensures Simple(optstring, c) || Declares(optstring, c, 1) || Declares(optstring, c, 2)
  {
    KindOfDeclared(optstring, c);
    hide Declares, KindOf;
  }

  lemma ElementIsWritten(optstring: string, a: seq<string>, i: nat) returns (item: Item, tail: Tail)
    requires i < |a| && a[i] != "--" && !NonOption(a[i])
    ensures tail.Nothing? ==>
      Proper(optstring, item) && i + |WriteItem(item)| <= |a| && a[i..i + |WriteItem(item)|] == WriteItem(item)
    ensures !tail.Nothing? ==> ProperTail(optstring, tail) && a[i..] == WriteTail(tail)
  {
    var flags, rest := SplitElement(optstring, a[i][1..]);
    hide AllSimple, Declares;
    assert a[i] == "-" + a[i][1..] && a[i..i + 1] == [a[i]];
    tail := Nothing;
    if rest == "" {
      item := Element(flags, NoLast);
      assert flags + rest == flags;
    } else {
      var c, text := rest[0], rest[1..];
      WrittenOut(a[i], flags, c, text);
      assert rest == [c] + text;
      if Declares(optstring, c, 2) {
        item := Element(flags, Last(c, if text == "" then Omitted else Attached(text)));
      } else if text != "" {
        item := Element(flags, Last(c, Attached(text)));
      } else if i + 1 < |a| {
        item := Element(flags, Last(c, Separate(a[i + 1])));
        assert a[i..i + 2] == [a[i], a[i + 1]];
      } else {
        item, tail := Word(""), Lacking(flags, c);
        assert a[i..] == [a[i]];
      }
    }
  }

  lemma WrittenOut(arg: string, flags: string, c: char, text: string)
    requires arg == "-" + (flags + ([c] + text))
    ensures arg == "-" + flags + [c] + text && (text == "" ==> arg == "-" + flags + [c])
  {
  }

  lemma WordIsWritten(optstring: string, a: seq<string>, i: nat)
    requires i < |a| && NonOption(a[i])
    ensures Proper(optstring, Word(a[i])) && a[i..i + 1] == WriteItem(Word(a[i]))
  {
    assert |a[i]| == 1 && a[i][0] == '-' ==> a[i] == "-";
  }

  lemma FirstItem(optstring: string, a: seq<string>, i: nat, item: Item, items: seq<Item>, tail: Tail)
    requires Proper(optstring, item) && ProperLine(optstring, items, tail) && i + |WriteItem(item)| <= |a|
    requires a[i..i + |WriteItem(item)|] == WriteItem(item) && a[i + |WriteItem(item)|..] == Write(items, tail)
    ensures a[i..] == Write([item] + items, tail) && ProperLine(optstring, [item] + items, tail)
  {
    hide *;
    WriteFirst(item, items, tail);
    ProperFirst(optstring, item, items, tail);
    assert a[i..] == a[i..i + |WriteItem(item)|] + a[i + |WriteItem(item)|..];
  }

  lemma WriteFirst(item: Item, items: seq<Item>, tail: Tail)
    ensures Write([item] + items, tail) == WriteItem(item) + Write(items, tail)
  {
    assert ([item] + items)[1..] == items;
  }

  lemma ProperFirst(optstring: string, item: Item, items: seq<Item>, tail: Tail)
    requires Proper(optstring, item) && ProperLine(optstring, items, tail)
    ensures ProperLine(optstring, [item] + items, tail)
  {
    hide Proper, ProperTail;
  }

  lemma OnlyTail(optstring: string, a: seq<string>, i: nat, tail: Tail)
    requires i <= |a| && a[i..] == WriteTail(tail) && ProperTail(optstring, tail)
    ensures a[i..] == Write([], tail) && ProperLine(optstring, [], tail)
  {
  }

  /** Every command line, under every optstring, is such a line. */
  lemma {:induction false} EveryLineIsWritten(optstring: string, a: seq<string>, i: nat)
    returns (items: seq<Item>, tail: Tail)
    requires i <= |a|
    ensures a[i..] == Write(items, tail) && ProperLine(optstring, items, tail)
    decreases |a| - i
  {
    hide WriteItem, Write, Proper, ProperTail, ProperLine, NonOption;
    items := [];
    if i == |a| {
      tail := Nothing;
      NothingLeft(optstring, a, i);
    } else if a[i] == "--" {
      tail := Dashes(a[i + 1..]);
      DashesLeft(optstring, a, i);
    } else if NonOption(a[i]) {
      WordIsWritten(optstring, a, i);
      OneWritten(a[i]);
      items, tail := EveryLineIsWritten(optstring, a, i + 1);
      FirstItem(optstring, a, i, Word(a[i]), items, tail);
      items := [Word(a[i])] + items;
    } else {
      var item;
      item, tail := ElementIsWritten(optstring, a, i);
      if tail.Nothing? {
        items, tail := EveryLineIsWritten(optstring, a, i + |WriteItem(item)|);
        FirstItem(optstring, a, i, item, items, tail);
        items := [item] + items;
      } else {
        OnlyTail(optstring, a, i, tail);
      }
    }
  }

  lemma OneWritten(text: string)
    ensures |WriteItem(Word(text))| == 1
  {
  }

  lemma NothingLeft(optstring: string, a: seq<string>, i: nat)
    requires i == |a|
    ensures a[i..] == Write([], Nothing) && ProperLine(optstring, [], Nothing)
  {
  }

  lemma DashesLeft(optstring: string, a: seq<string>, i: nat)
    requires i < |a| && a[i] == "--"
    ensures a[i..] == Write([], Dashes(a[i + 1..])) && ProperLine(optstring, [], Dashes(a[i + 1..]))
  {
    assert a[i..] == [a[i]] + a[i + 1..];
  }

  // ---------------------------------------------------------------- the whole command line

  /** What getopt makes of a written command line: it returns the options as they were meant, and
      permutes argv into the program name, the option elements and the words, each in order. */
  lemma LineIsParsed(optstring: string, a: seq<string>, items: seq<Item>, tail: Tail)
    requires a != [] && a[1..] == Write(items, tail) && ProperLine(optstring, items, tail)
    ensures var s := Scan(optstring, a);
            && s.opts == Opts(optstring, items, tail) && |s.options| == |Elements(items, tail)|
            && Splits(s, 1, |a|)
            && Permuted(optstring, a) == [a[0]] + Elements(items, tail) + Words(items, tail)
  {
    LineReads(optstring, a, 1, items, tail);
    ScanSplits(optstring, a, 1, "");
    assert a[..1] == [a[0]];
    hide ScanFrom, Splits, Pick, Opts, Elements, Words, Write, ProperLine;
  }
}
