/**
 The GNU getopt of benchmarks/kmeans/getopt.c, for short options in PERMUTE mode: the way
 kmeans.c calls it.

 The parser keeps its position between calls and permutes argv in place as it goes.  The
 specification is `Scan`, one pass over the original arguments that never moves anything;
 `ParseAll` is proved to return the options of that pass and to leave argv with the option
 elements first and the other arguments last, each group in its original order.  What the
 scan itself means is in CommandLines.
 */
module Getopt {

  datatype Option<T> = None | Some(value: T)

  // One answer of getopt: the character it returns and optarg.
  datatype Opt = Opt(ch: char, arg: Option<string>)

  // ---------------------------------------------------------------- option strings

  // my_index: the first position of c, or the length.
  function IndexOf(s: string, c: char): (i: nat)
    ensures i <= |s| && (i < |s| ==> s[i] == c) && forall k :: 0 <= k < i ==> s[k] != c
  {
    if s == "" then 0 else if s[0] == c then 0 else 1 + IndexOf(s[1..], c)
  }

  datatype Kind = Unknown | Flag | Required | Optional

  function KindOf(optstring: string, c: char): Kind {
    var i := IndexOf(optstring, c);
    if i == |optstring| || c == ':' then Unknown
    else if i + 1 < |optstring| && optstring[i + 1] == ':' then
      if i + 2 < |optstring| && optstring[i + 2] == ':' then Optional else Required
    else Flag
  }

  // PERMUTE mode and no -W extension.
  predicate Plain(optstring: string) {
    && (optstring != "" ==> optstring[0] != '-' && optstring[0] != '+')
    && (forall i :: 0 <= i < |optstring| - 1 && optstring[i] == 'W' ==> optstring[i + 1] != ';')
  }

  function MissingArgument(optstring: string): char {
    if optstring != "" && optstring[0] == ':' then ':' else '?'
  }

  // NONOPTION_P
  predicate NonOption(arg: string) { arg == "" || arg[0] != '-' || |arg| == 1 }

  // ---------------------------------------------------------------- the one-pass scan

  // Options found; indices of option elements (with their arguments and "--"); indices of
  // the other arguments.
  datatype Scanned = Scanned(opts: seq<Opt>, options: seq<nat>, others: seq<nat>)
  {
    function Then(next: Scanned): Scanned {
      Scanned(opts + next.opts, options + next.options, others + next.others)
    }
  }

  const NOTHING: Scanned := Scanned([], [], [])

  function Interval(lo: nat, hi: nat): (s: seq<nat>)
    requires lo <= hi
    ensures |s| == hi - lo && forall k :: 0 <= k < |s| ==> s[k] == lo + k
  {
    seq(hi - lo, k requires 0 <= k < hi - lo => lo + k)
  }

  // The first answer for the characters `rest` left in element i, what remains of them, and
  // how many elements are finished with.
  datatype Decoded = Decoded(opt: Opt, rest: string, consumed: nat)

  function Decode(optstring: string, a: seq<string>, i: nat, rest: string): (d: Decoded)
    requires rest != "" && i < |a|
    ensures |d.rest| < |rest| && i + d.consumed <= |a| && (d.consumed == 0 <==> d.rest != "")
  {
    var c, tail := rest[0], rest[1..];
    match KindOf(optstring, c)
    case Unknown => Decoded(Opt('?', None), tail, if tail == "" then 1 else 0)
    case Flag => Decoded(Opt(c, None), tail, if tail == "" then 1 else 0)
    case Optional => Decoded(Opt(c, if tail == "" then None else Some(tail)), "", 1)
    case Required =>
      if tail != "" then Decoded(Opt(c, Some(tail)), "", 1)
      else if i + 1 == |a| then Decoded(Opt(MissingArgument(optstring), None), "", 1)
      else Decoded(Opt(c, Some(a[i + 1])), "", 2)
  }

  // ---------------------------------------------------------------- what a decoded option is

  const COLONS: string := "::"

  // optstring is something without c, then c, then n colons that no further one follows.
  predicate DeclaredAt(optstring: string, c: char, n: nat, k: nat) {
    && n <= 2 && k + 1 + n <= |optstring| && c != ':' && c !in optstring[..k]
    && optstring == optstring[..k] + [c] + COLONS[..n] + optstring[k + 1 + n..]
    && (n < 2 && k + 1 + n < |optstring| ==> optstring[k + 1 + n] != ':')
  }

  // c is an option without, with a required, or with an optional argument.
  predicate Declares(optstring: string, c: char, n: nat) {
    exists k :: 0 <= k < |optstring| && DeclaredAt(optstring, c, n, k)
  }

  lemma ShapeDeclares(pre: string, c: char, n: nat, post: string)
    requires c != ':' && c !in pre && n <= 2 && (n < 2 && post != "" ==> post[0] != ':')
    ensures Declares(pre + [c] + COLONS[..n] + post, c, n)
  {
    var optstring := pre + [c] + COLONS[..n] + post;
    assert optstring[..|pre|] == pre && optstring[|pre| + 1 + n..] == post;
    assert DeclaredAt(optstring, c, n, |pre|);
  }

  lemma FirstIsLeast(s: string, c: char, k: nat)
    requires k < |s| && s[k] == c && c !in s[..k]
    ensures IndexOf(s, c) == k
  {
    assert forall j :: 0 <= j < k ==> s[..k][j] == s[j];
  }

  lemma IndexOfDeclared(optstring: string, c: char, n: nat, k: nat)
    requires DeclaredAt(optstring, c, n, k)
    ensures IndexOf(optstring, c) == k && optstring[k] == c
    ensures n >= 1 <==> k + 1 < |optstring| && optstring[k + 1] == ':'
    ensures n == 2 <==> n >= 1 && k + 2 < |optstring| && optstring[k + 2] == ':'
  {
    var s := optstring[..k] + [c] + COLONS[..n] + optstring[k + 1 + n..];
    assert s[k] == c;
    assert n >= 1 ==> s[k + 1] == ':';
    assert n == 2 ==> s[k + 2] == ':';
    FirstIsLeast(optstring, c, k);
  }

  // Every character is declared in exactly one way, or unknown.
  lemma KindOfDeclared(optstring: string, c: char)
    ensures c == ':' || c !in optstring <==> KindOf(optstring, c) == Unknown
    ensures Declares(optstring, c, 0) <==> KindOf(optstring, c) == Flag
    ensures Declares(optstring, c, 1) <==> KindOf(optstring, c) == Required
    ensures Declares(optstring, c, 2) <==> KindOf(optstring, c) == Optional
  {
    forall n: nat, k: nat | k < |optstring| && DeclaredAt(optstring, c, n, k)
      ensures KindOf(optstring, c) == (if n == 0 then Flag else if n == 1 then Required else Optional)
    {
      IndexOfDeclared(optstring, c, n, k);
    }
    KindIsDeclared(optstring, c);
  }

  lemma KindIsDeclared(optstring: string, c: char)
    ensures KindOf(optstring, c) == Flag ==> Declares(optstring, c, 0)
    ensures KindOf(optstring, c) == Required ==> Declares(optstring, c, 1)
    ensures KindOf(optstring, c) == Optional ==> Declares(optstring, c, 2)
  {
    var k := IndexOf(optstring, c);
    if KindOf(optstring, c) != Unknown {
      var n := if KindOf(optstring, c) == Flag then 0 else if KindOf(optstring, c) == Required then 1 else 2;
      assert COLONS[..n] == optstring[k + 1..k + 1 + n];
      assert DeclaredAt(optstring, c, n, k);
    }
  }

  /** What the first of the characters left in element i says: an option without an argument, one
      whose argument is the rest of the element or the next element, one whose argument is missing
      or left out, or no option. */
  lemma DecodesOption(optstring: string, a: seq<string>, i: nat, c: char, text: string)
    requires i < |a|
    ensures var d := Decode(optstring, a, i, [c] + text);
            && (c == ':' || c !in optstring ==> d == Decoded(Opt('?', None), text, if text == "" then 1 else 0))
            && (Declares(optstring, c, 0) ==> d == Decoded(Opt(c, None), text, if text == "" then 1 else 0))
            && (Declares(optstring, c, 1) && text != "" ==> d == Decoded(Opt(c, Some(text)), "", 1))
            && (Declares(optstring, c, 1) && text == "" && i + 1 < |a| ==> d == Decoded(Opt(c, Some(a[i + 1])), "", 2))
            && (Declares(optstring, c, 1) && text == "" && i + 1 == |a| ==>
                  d == Decoded(Opt(if optstring[0] == ':' then ':' else '?', None), "", 1))
            && (Declares(optstring, c, 2) && text != "" ==> d == Decoded(Opt(c, Some(text)), "", 1))
            && (Declares(optstring, c, 2) && text == "" ==> d == Decoded(Opt(c, None), "", 1))
  {
    KindOfDeclared(optstring, c);
    assert ([c] + text)[1..] == text;
    hide KindOf, Declares;
  }

  // The first character left is no option, or its argument is missing.
  predicate Rejected(optstring: string, a: seq<string>, i: nat, rest: string)
    requires rest != ""
  {
    rest[0] == ':' || rest[0] !in optstring || (Declares(optstring, rest[0], 1) && |rest| == 1 && i + 1 == |a|)
  }

  lemma RejectedIs(optstring: string, a: seq<string>, i: nat, rest: string)
    requires rest != ""
    ensures Rejected(optstring, a, i, rest) <==>
      KindOf(optstring, rest[0]) == Unknown
      || (KindOf(optstring, rest[0]) == Required && |rest| == 1 && i + 1 == |a|)
  {
    KindOfDeclared(optstring, rest[0]);
    hide KindOf, Declares;
  }

  // The branches of the decoding, by what stands behind the character in optstring.
  lemma ShortCases(optstring: string, a: seq<string>, i: nat, rest: string)
    requires rest != "" && i < |a|
    ensures var d, c, text, k := Decode(optstring, a, i, rest), rest[0], rest[1..], IndexOf(optstring, rest[0]);
            if k == |optstring| || c == ':' then
              d == Decoded(Opt('?', None), text, if text == "" then 1 else 0) && Rejected(optstring, a, i, rest)
            else if !(k + 1 < |optstring| && optstring[k + 1] == ':') then
              d == Decoded(Opt(c, None), text, if text == "" then 1 else 0) && !Rejected(optstring, a, i, rest)
            else if k + 2 < |optstring| && optstring[k + 2] == ':' then
              d == Decoded(Opt(c, if text == "" then None else Some(text)), "", 1) && !Rejected(optstring, a, i, rest)
            else if text != "" then
              d == Decoded(Opt(c, Some(text)), "", 1) && !Rejected(optstring, a, i, rest)
            else if i + 1 == |a| then
              d == Decoded(Opt(MissingArgument(optstring), None), "", 1) && Rejected(optstring, a, i, rest)
            else d == Decoded(Opt(c, Some(a[i + 1])), "", 2) && !Rejected(optstring, a, i, rest)
  {
    hide *;
    RejectedIs(optstring, a, i, rest);
    KindBranches(optstring, rest[0]);
    DecodeBranches(optstring, a, i, rest);
  }

  lemma KindBranches(optstring: string, c: char)
    ensures var k := IndexOf(optstring, c);
            KindOf(optstring, c) ==
              if k == |optstring| || c == ':' then Unknown
              else if !(k + 1 < |optstring| && optstring[k + 1] == ':') then Flag
              else if k + 2 < |optstring| && optstring[k + 2] == ':' then Optional
              else Required
  {
    hide IndexOf;
  }

  lemma DecodeBranches(optstring: string, a: seq<string>, i: nat, rest: string)
    requires rest != "" && i < |a|
    ensures var d, c, text := Decode(optstring, a, i, rest), rest[0], rest[1..];
            match KindOf(optstring, c)
            case Unknown => d == Decoded(Opt('?', None), text, if text == "" then 1 else 0)
            case Flag => d == Decoded(Opt(c, None), text, if text == "" then 1 else 0)
            case Optional => d == Decoded(Opt(c, if text == "" then None else Some(text)), "", 1)
            case Required =>
              d == if text != "" then Decoded(Opt(c, Some(text)), "", 1)
                   else if i + 1 == |a| then Decoded(Opt(MissingArgument(optstring), None), "", 1)
                   else Decoded(Opt(c, Some(a[i + 1])), "", 2)
  {
    hide KindOf, MissingArgument;
  }

  // The characters getopt is about to decode: those left, or those after a fresh dash.
  function Pending(a: seq<string>, i: nat, rest: string): string
    requires i < |a| && (rest == "" ==> a[i] != "")
  {
    if rest != "" then rest else a[i][1..]
  }

  // Scanning from element i, of which the characters `rest` are left (none: a new element).
  function ScanFrom(optstring: string, a: seq<string>, i: nat, rest: string): (s: Scanned)
    requires i <= |a| && (rest != "" ==> i < |a|)
    decreases |a| - i, if rest != "" then |rest| else if i < |a| then |a[i]| else 0
  {
    if rest == "" && i == |a| then NOTHING
    else if rest == "" && a[i] == "--" then Scanned([], [i], Interval(i + 1, |a|))
    else if rest == "" && NonOption(a[i]) then Scanned([], [], [i]).Then(ScanFrom(optstring, a, i + 1, ""))
    else
      var d := Decode(optstring, a, i, Pending(a, i, rest));
      Scanned([d.opt], Interval(i, i + d.consumed), []).Then(ScanFrom(optstring, a, i + d.consumed, d.rest))
  }

  // The scan of a command line; element 0 is the program name.
  function Scan(optstring: string, a: seq<string>): Scanned
    requires a != []
  {
    ScanFrom(optstring, a, 1, "")
  }
  predicate Within(indices: seq<nat>, n: nat) {
    forall k :: 0 <= k < |indices| ==> indices[k] < n
  }

  function Pick<T>(a: seq<T>, indices: seq<nat>): (s: seq<T>)
    requires Within(indices, |a|)
    ensures |s| == |indices| && forall k :: 0 <= k < |s| ==> s[k] == a[indices[k]]
  {
    seq(|indices|, k requires 0 <= k < |indices| && Within(indices, |a|) => a[indices[k]])
  }

  predicate Ascending(s: seq<nat>, lo: nat, hi: nat) {
    && (forall k :: 0 <= k < |s| ==> lo <= s[k] < hi)
    && (forall k, l :: 0 <= k < l < |s| ==> s[k] < s[l])
  }

  // Every index from lo to hi stands in exactly one of two ascending lists.
  predicate Splits(s: Scanned, lo: nat, hi: nat) {
    && Ascending(s.options, lo, hi) && Ascending(s.others, lo, hi)
    && |s.options| + |s.others| + lo == hi
    && (forall i :: lo <= i < hi ==> (i in s.options) != (i in s.others))
  }

  lemma SplitsWithin(s: Scanned, lo: nat, hi: nat, n: nat)
    requires Splits(s, lo, hi) && hi <= n
    ensures Within(s.options, n) && Within(s.others, n) && |s.options| + |s.others| + lo == hi
  {
  }

  lemma AscendingThen(s: seq<nat>, t: seq<nat>, lo: nat, mid: nat, hi: nat)
    requires Ascending(s, lo, mid) && Ascending(t, mid, hi) && lo <= mid <= hi
    ensures Ascending(s + t, lo, hi)
    ensures forall i :: lo <= i < mid ==> (i in s + t <==> i in s)
    ensures forall i :: mid <= i < hi ==> (i in s + t <==> i in t)
  {
  }

  lemma SplitsThen(s: Scanned, t: Scanned, lo: nat, mid: nat, hi: nat)
    requires Splits(s, lo, mid) && Splits(t, mid, hi)
    ensures Splits(s.Then(t), lo, hi)
  {
    AscendingThen(s.options, t.options, lo, mid, hi);
    AscendingThen(s.others, t.others, lo, mid, hi);
    hide Ascending;
    forall i | lo <= i < hi ensures (i in s.options + t.options) != (i in s.others + t.others) {
    }
  }

  // The cases of the scan, as equations.
  lemma ScanStops(optstring: string, a: seq<string>, i: nat)
    requires i == |a| || (i < |a| && a[i] == "--")
    ensures ScanFrom(optstring, a, i, "") == if i == |a| then NOTHING else Scanned([], [i], Interval(i + 1, |a|))
  {
  }

  lemma ScanOther(optstring: string, a: seq<string>, i: nat)
    requires i < |a| && NonOption(a[i])
    ensures ScanFrom(optstring, a, i, "") == Scanned([], [], [i]).Then(ScanFrom(optstring, a, i + 1, ""))
  {
  }

  lemma ScanDecoded(optstring: string, a: seq<string>, i: nat, rest: string)
    requires i < |a| && (rest == "" ==> a[i] != "--" && !NonOption(a[i]))
    ensures var d := Decode(optstring, a, i, Pending(a, i, rest));
            ScanFrom(optstring, a, i, rest)
            == Scanned([d.opt], Interval(i, i + d.consumed), []).Then(ScanFrom(optstring, a, i + d.consumed, d.rest))
  {
  }

  lemma NothingSplits(i: nat)
    ensures Splits(NOTHING, i, i)
  {
  }

  lemma OtherSplits(i: nat)
    ensures Splits(Scanned([], [], [i]), i, i + 1)
  {
  }

  lemma IntervalSplits(opts: seq<Opt>, lo: nat, hi: nat)
    requires lo <= hi
    ensures Splits(Scanned(opts, Interval(lo, hi), []), lo, hi)
    ensures Splits(Scanned(opts, [], Interval(lo, hi)), lo, hi)
  {
    forall i | lo <= i < hi ensures i in Interval(lo, hi) { assert Interval(lo, hi)[i - lo] == i; }
  }

  lemma DashDashSplits(i: nat, hi: nat)
    requires i < hi
    ensures Splits(Scanned([], [i], Interval(i + 1, hi)), i, hi)
  {
    hide *;
    IntervalSplits([], i, i + 1);
    IntervalSplits([], i + 1, hi);
    SplitsThen(Scanned([], Interval(i, i + 1), []), Scanned([], [], Interval(i + 1, hi)), i, i + 1, hi);
    DashThenOthers(i, Interval(i + 1, hi));
  }

  lemma DashThenOthers(i: nat, others: seq<nat>)
    ensures Scanned([], Interval(i, i + 1), []).Then(Scanned([], [], others)) == Scanned([], [i], others)
  {
    assert Interval(i, i + 1) == [i];
  }

  /** The scan splits the indices of the elements from i on into two ascending lists. */
  lemma {:induction false} ScanSplits(optstring: string, a: seq<string>, i: nat, rest: string)
    requires i <= |a| && (rest != "" ==> i < |a|)
    ensures Splits(ScanFrom(optstring, a, i, rest), i, |a|)
    decreases |a| - i, if rest != "" then |rest| else if i < |a| then |a[i]| else 0
  {
    hide Splits, Decode, ScanFrom, Scanned.Then, Interval;
    if rest == "" && i == |a| {
      ScanStops(optstring, a, i);
      NothingSplits(i);
    } else if rest == "" && a[i] == "--" {
      ScanStops(optstring, a, i);
      DashDashSplits(i, |a|);
    } else if rest == "" && NonOption(a[i]) {
      ScanOther(optstring, a, i);
      ScanSplits(optstring, a, i + 1, "");
      OtherSplits(i);
      SplitsThen(Scanned([], [], [i]), ScanFrom(optstring, a, i + 1, ""), i, i + 1, |a|);
    } else {
      var d := Decode(optstring, a, i, Pending(a, i, rest));
      ScanDecoded(optstring, a, i, rest);
      ScanSplits(optstring, a, i + d.consumed, d.rest);
      IntervalSplits([d.opt], i, i + d.consumed);
      SplitsThen(Scanned([d.opt], Interval(i, i + d.consumed), []),
                 ScanFrom(optstring, a, i + d.consumed, d.rest), i, i + d.consumed, |a|);
    }
  }

  predicate DashesBy(a: seq<string>, i: nat, k: nat)
    requires i <= k < |a|
  {
    "--" in a[i..k + 1]
  }

  // No option element stands at i or later, unless behind a "--".
  predicate NoOptionFrom(a: seq<string>, i: nat) {
    forall k :: i <= k < |a| && !NonOption(a[k]) ==> DashesBy(a, i, k)
  }

  /** A scan finds no option exactly when no option element stands before the first "--". */
  lemma {:induction false} ScanFindsNone(optstring: string, a: seq<string>, i: nat)
    requires i <= |a|
    ensures ScanFrom(optstring, a, i, "").opts == [] <==> NoOptionFrom(a, i)
    decreases |a| - i
  {
    if i < |a| && a[i] == "--" {
      forall k | i <= k < |a| ensures DashesBy(a, i, k) { assert a[i..k + 1][0] == "--"; }
    } else if i < |a| && NonOption(a[i]) {
      ScanFindsNone(optstring, a, i + 1);
      NoneAfterOther(a, i);
    } else if i < |a| {
      assert a[i..i + 1] == [a[i]];
      assert !DashesBy(a, i, i);
    }
  }

  lemma NoneAfterOther(a: seq<string>, i: nat)
    requires i < |a| && a[i] != "--" && NonOption(a[i])
    ensures NoOptionFrom(a, i) <==> NoOptionFrom(a, i + 1)
  {
    forall k | i < k < |a|
      ensures DashesBy(a, i, k) <==> DashesBy(a, i + 1, k)
    {
      assert a[i..k + 1] == [a[i]] + a[i + 1..k + 1];
    }
  }

  // ---------------------------------------------------------------- exchange

  // The sequence with the adjacent blocks [bottom, middle) and [middle, top) swapped.
  function Rotated<T>(s: seq<T>, bottom: nat, middle: nat, top: nat): (r: seq<T>)
    requires bottom <= middle <= top <= |s|
    ensures |r| == |s|
  {
    s[..bottom] + s[middle..top] + s[bottom..middle] + s[top..]
  }

  // The sequence with the equally long blocks at p and q swapped.
  function Swapped<T>(s: seq<T>, p: nat, q: nat, len: nat): (r: seq<T>)
    requires p + len <= q && q + len <= |s|
    ensures |r| == |s|
  {
    s[..p] + s[q..q + len] + s[p + len..q] + s[p..p + len] + s[q + len..]
  }

  // The two swapping loops of exchange.
  method SwapBlocks(argv: array<string>, p: nat, q: nat, len: nat)
    requires p + len <= q && q + len <= argv.Length
    modifies argv
    ensures argv[..] == Swapped(old(argv[..]), p, q, len)
  {
    hide Swapped;
    ghost var was, gap := argv[..], q - p;
    var i := 0;
    while i < len
      invariant i <= len
      invariant forall k :: 0 <= k < p || p + i <= k < q || q + i <= k < argv.Length ==> argv[k] == was[k]
      invariant forall k :: p <= k < p + i ==> argv[k] == was[k + gap]
      invariant forall k :: q <= k < q + i ==> argv[k] == was[k - gap]
    {
      var tem := argv[p + i];
      argv[p + i] := argv[q + i];
      argv[q + i] := tem;
      i := i + 1;
    }
    SwappedPointwise(was, argv[..], p, q, len);
  }

  lemma SwappedPointwise<T>(s: seq<T>, r: seq<T>, p: nat, q: nat, len: nat)
    requires p + len <= q && q + len <= |s| == |r|
    requires forall k :: 0 <= k < p || p + len <= k < q || q + len <= k < |s| ==> r[k] == s[k]
    requires forall k :: p <= k < p + len ==> r[k] == s[k + (q - p)]
    requires forall k :: q <= k < q + len ==> r[k] == s[k - (q - p)]
    ensures r == Swapped(s, p, q, len)
  {
    var w := Swapped(s, p, q, len);
    assert forall k :: 0 <= k < p ==> w[k] == s[k];
    assert forall k :: p <= k < p + len ==> w[k] == s[k + (q - p)];
    assert forall k :: p + len <= k < q ==> w[k] == s[k];
    assert forall k :: q <= k < q + len ==> w[k] == s[k - (q - p)];
    assert forall k :: q + len <= k < |s| ==> w[k] == s[k];
    hide Swapped;
    assert forall k :: 0 <= k < |s| ==> r[k] == w[k];
  }

  // The bottom block is the shorter: swapping it with the far end of the top block puts it
  // in place and leaves a smaller rotation.
  lemma BottomInPlace<T>(s: seq<T>, bottom: nat, middle: nat, top: nat)
    requires bottom <= middle <= top <= |s| && top - middle > middle - bottom
    ensures var len := middle - bottom;
            Rotated(Swapped(s, bottom, top - len, len), bottom, middle, top - len) == Rotated(s, bottom, middle, top)
  {
    hide Rotated, Swapped;
    var len := middle - bottom;
    var r := Swapped(s, bottom, top - len, len);
    forall k | 0 <= k < |s| ensures Rotated(r, bottom, middle, top - len)[k] == Rotated(s, bottom, middle, top)[k] {
      RotatedAt(r, bottom, middle, top - len, k);
      SwappedAt(s, bottom, top - len, len, RotatedIndex(bottom, middle, top - len, k));
      RotatedAt(s, bottom, middle, top, k);
    }
  }

  lemma TopInPlace<T>(s: seq<T>, bottom: nat, middle: nat, top: nat)
    requires bottom <= middle <= top <= |s| && top - middle <= middle - bottom
    ensures var len := top - middle;
            Rotated(Swapped(s, bottom, middle, len), bottom + len, middle, top) == Rotated(s, bottom, middle, top)
  {
    hide Rotated, Swapped;
    var len := top - middle;
    var r := Swapped(s, bottom, middle, len);
    forall k | 0 <= k < |s| ensures Rotated(r, bottom + len, middle, top)[k] == Rotated(s, bottom, middle, top)[k] {
      RotatedAt(r, bottom + len, middle, top, k);
      SwappedAt(s, bottom, middle, len, RotatedIndex(bottom + len, middle, top, k));
      RotatedAt(s, bottom, middle, top, k);
    }
  }

  // Where the k-th element after a rotation or a swap came from.
  function RotatedIndex(bottom: nat, middle: nat, top: nat, k: nat): nat
    requires bottom <= middle <= top
  {
    if k < bottom || k >= top then k
    else if k < bottom + (top - middle) then k + (middle - bottom)
    else k - (top - middle)
  }

  function SwappedIndex(p: nat, q: nat, len: nat, k: nat): nat
    requires p + len <= q
  {
    if p <= k < p + len then k + (q - p) else if q <= k < q + len then k - (q - p) else k
  }

  lemma RotatedAt<T>(s: seq<T>, bottom: nat, middle: nat, top: nat, k: nat)
    requires bottom <= middle <= top <= |s| && k < |s|
    ensures RotatedIndex(bottom, middle, top, k) < |s|
    ensures Rotated(s, bottom, middle, top)[k] == s[RotatedIndex(bottom, middle, top, k)]
  {
  }

  lemma SwappedAt<T>(s: seq<T>, p: nat, q: nat, len: nat, k: nat)
    requires p + len <= q && q + len <= |s| && k < |s|
    ensures SwappedIndex(p, q, len, k) < |s|
    ensures Swapped(s, p, q, len)[k] == s[SwappedIndex(p, q, len, k)]
  {
  }

  lemma RotateParts<T>(p: seq<T>, x: seq<T>, y: seq<T>, r: seq<T>)
    ensures Rotated(p + x + y + r, |p|, |p| + |x|, |p| + |x| + |y|) == p + y + x + r
  {
    var s := p + x + y + r;
    assert s[..|p|] == p;
    assert s[|p|..|p| + |x|] == x;
    assert s[|p| + |x|..|p| + |x| + |y|] == y;
    assert s[|p| + |x| + |y|..] == r;
  }

  // ---------------------------------------------------------------- the parser

  // The parts of a command line: what is before the scan, the options moved, the other
  // arguments, the options not moved yet, and what has not been scanned.
  function Line<T>(h: seq<T>, x: seq<T>, n: seq<T>, y: seq<T>, r: seq<T>): (s: seq<T>)
    ensures |s| == |h| + |x| + |n| + |y| + |r| && s[|h| + |x| + |n| + |y|..] == r
  {
    h + x + n + y + r
  }

  lemma LineRotates<T>(h: seq<T>, x: seq<T>, n: seq<T>, y: seq<T>, r: seq<T>)
    ensures Rotated(Line(h, x, n, y, r), |h| + |x|, |h| + |x| + |n|, |h| + |x| + |n| + |y|) == Line(h, x + y, n, [], r)
  {
    RotateParts(h + x, n, y, r);
    hide Rotated;
    LineRegrouped(h, x, n, y, r);
  }

  lemma LineRegrouped<T>(h: seq<T>, x: seq<T>, n: seq<T>, y: seq<T>, r: seq<T>)
    ensures Line(h, x, n, y, r) == (h + x) + n + y + r
    ensures Line(h, x + y, n, [], r) == (h + x) + y + n + r
  {
    assert h + (x + y) == (h + x) + y;
    assert (h + x) + y + n + [] == (h + x) + y + n;
  }

  lemma LineWithoutOthers<T>(h: seq<T>, x: seq<T>, y: seq<T>, r: seq<T>)
    ensures Line(h, x, [], y, r) == Line(h, x + y, [], [], r)
  {
    LineRegrouped(h, x, [], y, r);
    assert (h + x) + [] == h + x && (h + x) + y + [] == (h + x) + y;
  }

  lemma LineSlides<T>(h: seq<T>, x: seq<T>, n: seq<T>, y: seq<T>, m: seq<T>, r: seq<T>)
    ensures Line(h, x, n, y + m, r) == Line(h, x, n, y, m + r)
    ensures Line(h, x, n + m, [], r) == Line(h, x, n, [], m + r)
  {
    Regroup(h + x + n, y, m, r);
    Regroup(h + x, n, m, r);
    assert h + x + (n + m) + [] == h + x + (n + m) && h + x + n + [] == h + x + n;
  }

  lemma Regroup<T>(h: seq<T>, y: seq<T>, m: seq<T>, r: seq<T>)
    ensures h + (y + m) + r == h + y + (m + r)
  {
  }

  // argv when the elements from lo to end have been scanned, with the first `early` options
  // already moved before the other arguments and the later ones still behind them.
  function Layout<T>(a: seq<T>, d: Scanned, lo: nat, early: nat, end: nat): (s: seq<T>)
    requires lo <= end <= |a| && Splits(d, lo, end) && early <= |d.options|
    ensures |s| == |a| && s[end..] == a[end..]
  {
    SplitsWithin(d, lo, end, |a|);
    var options := Pick(a, d.options);
    Line(a[..lo], options[..early], Pick(a, d.others), options[early..], a[end..])
  }

  lemma LayoutIs<T>(a: seq<T>, d: Scanned, lo: nat, early: nat, end: nat, x: seq<T>, n: seq<T>, y: seq<T>)
    requires lo <= end <= |a| && Splits(d, lo, end) && early <= |d.options|
    requires Within(d.options, |a|) && Within(d.others, |a|)
    requires x == Pick(a, d.options)[..early] && n == Pick(a, d.others) && y == Pick(a, d.options)[early..]
    ensures Layout(a, d, lo, early, end) == Line(a[..lo], x, n, y, a[end..])
  {
  }

  // All options moved.
  lemma LayoutSettled<T>(a: seq<T>, d: Scanned, lo: nat, end: nat)
    requires lo <= end <= |a| && Splits(d, lo, end) && Within(d.options, |a|) && Within(d.others, |a|)
    ensures Layout(a, d, lo, |d.options|, end) == Line(a[..lo], Pick(a, d.options), Pick(a, d.others), [], a[end..])
  {
    var options := Pick(a, d.options);
    assert options[..|d.options|] == options && options[|d.options|..] == [];
    LayoutIs(a, d, lo, |d.options|, end, options, Pick(a, d.others), []);
  }

  function MoreOptions(d: Scanned, lo: nat, hi: nat): Scanned
    requires lo <= hi
  {
    d.(options := d.options + Interval(lo, hi))
  }

  function MoreOthers(d: Scanned, lo: nat, hi: nat): Scanned
    requires lo <= hi
  {
    d.(others := d.others + Interval(lo, hi))
  }

  lemma MoreSplits(d: Scanned, base: nat, lo: nat, hi: nat)
    requires base <= lo <= hi && Splits(d, base, lo)
    ensures Splits(MoreOptions(d, lo, hi), base, hi) && Splits(MoreOthers(d, lo, hi), base, hi)
  {
    IntervalSplits([], lo, hi);
    SplitsThen(d, Scanned([], Interval(lo, hi), []), base, lo, hi);
    SplitsThen(d, Scanned([], [], Interval(lo, hi)), base, lo, hi);
    hide Splits, Interval;
    MoreIsThen(d, lo, hi);
  }

  lemma MoreIsThen(d: Scanned, lo: nat, hi: nat)
    requires lo <= hi
    ensures MoreOptions(d, lo, hi) == d.Then(Scanned([], Interval(lo, hi), []))
    ensures MoreOthers(d, lo, hi) == d.Then(Scanned([], [], Interval(lo, hi)))
  {
  }

  lemma PickJoin<T>(a: seq<T>, x: seq<nat>, y: seq<nat>)
    requires Within(x, |a|) && Within(y, |a|)
    ensures Within(x + y, |a|) && Pick(a, x + y) == Pick(a, x) + Pick(a, y)
  {
  }

  lemma PickInterval<T>(a: seq<T>, lo: nat, hi: nat)
    requires lo <= hi <= |a|
    ensures Within(Interval(lo, hi), |a|) && Pick(a, Interval(lo, hi)) == a[lo..hi]
  {
  }

  lemma PickMore<T>(a: seq<T>, indices: seq<nat>, lo: nat, hi: nat)
    requires Within(indices, |a|) && lo <= hi <= |a|
    ensures Within(indices + Interval(lo, hi), |a|)
    ensures Pick(a, indices + Interval(lo, hi)) == Pick(a, indices) + a[lo..hi]
    ensures a[lo..] == a[lo..hi] + a[hi..]
  {
    PickInterval(a, lo, hi);
    hide Interval;
    PickJoin(a, indices, Interval(lo, hi));
  }

  lemma SliceJoin<T>(p: seq<T>, q: seq<T>, early: nat)
    requires early <= |p|
    ensures (p + q)[..early] == p[..early] && (p + q)[early..] == p[early..] + q && p == p[..early] + p[early..]
  {
  }

  // exchange moves the later options before the other arguments.
  lemma ExchangeMoves<T>(a: seq<T>, d: Scanned, lo: nat, early: nat, end: nat)
    requires lo <= end <= |a| && Splits(d, lo, end) && early <= |d.options|
    ensures lo + early + |d.others| <= end
    ensures Rotated(Layout(a, d, lo, early, end), lo + early, lo + early + |d.others|, end)
         == Layout(a, d, lo, |d.options|, end)
  {
    hide *;
    SplitsWithin(d, lo, end, |a|);
    var options, n := Pick(a, d.options), Pick(a, d.others);
    var x, y := options[..early], options[early..];
    LayoutIs(a, d, lo, early, end, x, n, y);
    LayoutSettled(a, d, lo, end);
    SliceJoin(options, [], early);
    LineRotates(a[..lo], x, n, y, a[end..]);
  }

  // Without other arguments it does not matter how many options count as moved.
  lemma NothingToMove<T>(a: seq<T>, d: Scanned, lo: nat, early: nat, end: nat)
    requires lo <= end <= |a| && Splits(d, lo, end) && early <= |d.options| && d.others == []
    ensures Layout(a, d, lo, early, end) == Layout(a, d, lo, |d.options|, end)
  {
    hide *;
    SplitsWithin(d, lo, end, |a|);
    var options := Pick(a, d.options);
    assert Pick(a, d.others) == [];
    LayoutIs(a, d, lo, early, end, options[..early], [], options[early..]);
    LayoutSettled(a, d, lo, end);
    SliceJoin(options, [], early);
    LineWithoutOthers(a[..lo], options[..early], options[early..], a[end..]);
  }

  lemma OptionsStay<T>(a: seq<T>, d: Scanned, lo: nat, early: nat, end: nat, hi: nat)
    requires lo <= end <= hi <= |a| && Splits(d, lo, end) && early <= |d.options|
    ensures Splits(MoreOptions(d, end, hi), lo, hi) && early <= |MoreOptions(d, end, hi).options|
    ensures Layout(a, MoreOptions(d, end, hi), lo, early, hi) == Layout(a, d, lo, early, end)
  {
    hide *;
    hide MoreOptions;
    MoreSplits(d, lo, end, hi);
    SplitsWithin(d, lo, end, |a|);
    MoreParts(d, end, hi);
    var options, n, m := Pick(a, d.options), Pick(a, d.others), a[end..hi];
    PickMore(a, d.options, end, hi);
    SliceJoin(options, m, early);
    LayoutIs(a, d, lo, early, end, options[..early], n, options[early..]);
    LayoutIs(a, MoreOptions(d, end, hi), lo, early, hi, options[..early], n, options[early..] + m);
    LineSlides(a[..lo], options[..early], n, options[early..], m, a[hi..]);
  }

  lemma MoreParts(d: Scanned, lo: nat, hi: nat)
    requires lo <= hi
    ensures MoreOptions(d, lo, hi) == Scanned(d.opts, d.options + Interval(lo, hi), d.others)
    ensures MoreOthers(d, lo, hi) == Scanned(d.opts, d.options, d.others + Interval(lo, hi))
  {
  }

  lemma OthersStay<T>(a: seq<T>, d: Scanned, lo: nat, end: nat, hi: nat)
    requires lo <= end <= hi <= |a| && Splits(d, lo, end)
    ensures Splits(MoreOthers(d, end, hi), lo, hi) && MoreOthers(d, end, hi).options == d.options
    ensures Layout(a, MoreOthers(d, end, hi), lo, |d.options|, hi) == Layout(a, d, lo, |d.options|, end)
  {
    hide *;
    MoreSplits(d, lo, end, hi);
    SplitsWithin(d, lo, end, |a|);
    MoreParts(d, end, hi);
    var n, m := Pick(a, d.others), a[end..hi];
    PickMore(a, d.others, end, hi);
    LayoutSettled(a, d, lo, end);
    LayoutSettled(a, MoreOthers(d, end, hi), lo, hi);
    LineSlides(a[..lo], Pick(a, d.options), n, [], m, a[hi..]);
  }

  lemma ThenAssoc(r: Scanned, s: Scanned, t: Scanned)
    ensures r.Then(s).Then(t) == r.Then(s.Then(t))
  {
  }

  function Min(a: nat, b: nat): nat { if a <= b then a else b }

  // The options and other arguments that a call takes the elements before optind to be.
  function Assumed(first: nat, last: nat, optind: nat): (d: Scanned)
    requires first <= last
    ensures Splits(d, Min(first, optind), optind)
  {
    var mid := Min(last, optind);
    IntervalSplits([], Min(first, optind), mid);
    MoreSplits(Scanned([], [], Interval(Min(first, optind), mid)), Min(first, optind), mid, optind);
    MoreOptions(Scanned([], [], Interval(Min(first, optind), mid)), mid, optind)
  }

  lemma AssumedLayout<T>(a: seq<T>, first: nat, last: nat, optind: nat)
    requires first <= last && optind <= |a|
    ensures var d := Assumed(first, last, optind);
            && Min(last, optind) == Min(first, optind) + |d.others| && d.opts == []
            && Layout(a, d, Min(first, optind), 0, optind) == a
  {
    var d, lo, mid := Assumed(first, last, optind), Min(first, optind), Min(last, optind);
    hide Splits, Line, Interval, Assumed, Layout;
    AssumedParts(first, last, optind);
    PickInterval(a, lo, mid);
    PickInterval(a, mid, optind);
    LayoutIs(a, d, lo, 0, optind, [], a[lo..mid], a[mid..optind]);
    LineWhole(a, lo, mid, optind);
  }

  lemma AssumedParts(first: nat, last: nat, optind: nat)
    requires first <= last
    ensures Assumed(first, last, optind)
         == Scanned([], Interval(Min(last, optind), optind), Interval(Min(first, optind), Min(last, optind)))
  {
  }

  lemma LineWhole<T>(a: seq<T>, lo: nat, mid: nat, end: nat)
    requires lo <= mid <= end <= |a|
    ensures Line(a[..lo], [], a[lo..mid], a[mid..end], a[end..]) == a
  {
  }

  // What is scanned by calls that start, or start again, with the given static variables.
  function Resumed(optstring: string, a: seq<string>, first: nat, last: nat, optind: nat): Scanned
    requires first <= last && optind <= |a|
  {
    Assumed(first, last, optind).Then(ScanFrom(optstring, a, optind, ""))
  }

  // A call whose indices agree scans from optind on.
  lemma ResumedFresh(optstring: string, a: seq<string>, first: nat, last: nat, optind: nat)
    requires optind <= first <= last && optind <= |a|
    ensures Resumed(optstring, a, first, last, optind) == ScanFrom(optstring, a, optind, "")
    ensures Min(first, optind) == optind
  {
    AssumedParts(first, last, optind);
    assert Interval(optind, optind) == [];
    ThenNothing(ScanFrom(optstring, a, optind, ""));
  }

  /** The static variables of getopt.c.  The ghost fields only serve the specification: the
      calls so far have scanned the elements of `args` from `base` up to optind, they found
      `done` in them, and `whole` is what they and the calls to come find. */
  class Parser {
    var optind: nat
    var firstNonopt: nat
    var lastNonopt: nat
    var nextchar: string       // the characters left in argv[optind]; empty for NULL
    var optarg: Option<string>
    var optopt: char
    var initialized: bool

    ghost var args: seq<string>
    ghost var base: nat
    ghost var done: Scanned
    ghost var whole: Scanned

    constructor ()
      ensures optind == 1 && !initialized
    {
      optind, firstNonopt, lastNonopt, nextchar, optarg, optopt, initialized := 1, 1, 1, "", None, '?', false;
      args, base, done, whole := [], 1, NOTHING, NOTHING;
    }

    // The position in argv and the three indices agree with what has been scanned.
    ghost predicate Placed(argv: array<string>)
      reads `optind, `firstNonopt, `lastNonopt, `args, `base, `done, argv
    {
      && 1 <= base <= optind <= |args|
      && Splits(done, base, optind)
      && base <= firstNonopt <= base + |done.options|
      && lastNonopt == firstNonopt + |done.others|
      && argv[..] == Layout(args, done, base, firstNonopt - base, optind)
    }

    // In the middle of a scan.
    ghost predicate Valid(argv: array<string>, optstring: string)
      reads `optind, `firstNonopt, `lastNonopt, `nextchar, `initialized, `args, `base, `done, `whole, argv
    {
      && initialized && Placed(argv)
      && (nextchar != "" ==> optind < |args|)
      && done.Then(ScanFrom(optstring, args, optind, nextchar)) == whole
    }

    // After the call that returns -1.
    ghost predicate Finished(argv: array<string>, optstring: string)
      reads this, argv
    {
      && initialized && 1 <= base <= |args| && nextchar == ""
      && done == whole && Splits(done, base, |args|)
      && argv[..] == args[..base] + Pick(args, done.options) + Pick(args, done.others)
      && optind == base + |done.options| <= firstNonopt <= lastNonopt
    }

    // Between two elements, wherever the caller has put optind.
    predicate Resumable(argv: array<string>)
      reads `optind, `firstNonopt, `lastNonopt, `nextchar
    {
      nextchar == "" && 1 <= firstNonopt <= lastNonopt && 1 <= optind <= argv.Length
    }

    // What getopt may be called on.
    ghost predicate Callable(argv: array<string>, optstring: string)
      reads `optind, `firstNonopt, `lastNonopt, `nextchar, `initialized, `args, `base, `done, `whole, argv
    {
      argv.Length > 0 ==>
        if !initialized || optind == 0 then optind <= argv.Length
        else Valid(argv, optstring) || Resumable(argv)
    }

    // Where a call that does not continue a scan begins, and what it begins.
    ghost function BeginsAt(): nat
      reads `optind, `firstNonopt, `initialized
    {
      if optind == 0 then 1 else if !initialized then optind else Min(firstNonopt, optind)
    }

    ghost function Beginning(argv: array<string>, optstring: string): Scanned
      requires argv.Length > 0 && Callable(argv, optstring) && !Valid(argv, optstring)
      reads `optind, `firstNonopt, `lastNonopt, `nextchar, `initialized, `args, `base, `done, `whole, argv
    {
      if !initialized || optind == 0 then ScanFrom(optstring, argv[..], BeginsAt(), "")
      else Resumed(optstring, argv[..], firstNonopt, lastNonopt, optind)
    }

    /** After -1 getopt may be called again: it begins where it ended, and finds an option exactly
        when one stands among the other arguments before any "--". */
    lemma CalledAgain(argv: array<string>, optstring: string)
      requires Finished(argv, optstring)
      ensures Resumable(argv) && Callable(argv, optstring)
      ensures Resumed(optstring, argv[..], firstNonopt, lastNonopt, optind) == ScanFrom(optstring, argv[..], optind, "")
      ensures ScanFrom(optstring, argv[..], optind, "").opts == [] <==> NoOptionFrom(argv[..], optind)
    {
      SplitsWithin(done, base, |args|, |args|);
      ResumedFresh(optstring, argv[..], firstNonopt, lastNonopt, optind);
      ScanFindsNone(optstring, argv[..], optind);
    }

    method Exchange(argv: array<string>)
      requires firstNonopt <= lastNonopt <= optind <= argv.Length
      modifies argv, this`firstNonopt, this`lastNonopt
      ensures argv[..] == Rotated(old(argv[..]), old(firstNonopt), old(lastNonopt), optind)
      ensures firstNonopt == old(firstNonopt) + (optind - old(lastNonopt)) && lastNonopt == optind
    {
      hide Rotated, Swapped;
      var bottom: nat, middle: nat, top: nat := firstNonopt, lastNonopt, optind;
      ghost var goal := Rotated(argv[..], bottom, middle, top);
      while top > middle && middle > bottom
        invariant bottom <= middle <= top <= argv.Length
        invariant Rotated(argv[..], bottom, middle, top) == goal
        modifies argv
        decreases top - bottom
      {
        if top - middle > middle - bottom {
          BottomInPlace(argv[..], bottom, middle, top);
          var len := middle - bottom;
          SwapBlocks(argv, bottom, top - len, len);
          top := top - len;
        } else {
          TopInPlace(argv[..], bottom, middle, top);
          var len := top - middle;
          SwapBlocks(argv, bottom, middle, len);
          bottom := bottom + len;
        }
      }
      EmptyRotation(argv[..], bottom, middle, top);
      firstNonopt := firstNonopt + (optind - lastNonopt);
      lastNonopt := optind;
    }

    // _getopt_initialize, and the reset of optind before it.
    method Initialize()
      modifies this
      ensures initialized && nextchar == "" && optind == if old(optind) == 0 then 1 else old(optind)
      ensures firstNonopt == lastNonopt == optind && args == []
    {
      if optind == 0 { optind := 1; }
      firstNonopt, lastNonopt, nextchar, initialized := optind, optind, "", true;
      args := [];
    }

    // Lines 549-552: the indices when optind has been moved back. Unless a scan goes on, one
    // begins here, with the elements before optind as these indices tell.
    method Resume(argv: array<string>, optstring: string)
      requires initialized && nextchar == "" && (Valid(argv, optstring) || Resumable(argv))
      modifies this`firstNonopt, this`lastNonopt, this`args, this`base, this`done, this`whole
      ensures Valid(argv, optstring)
      ensures old(Valid(argv, optstring)) ==>
                && args == old(args) && base == old(base) && done == old(done) && whole == old(whole)
                && firstNonopt == old(firstNonopt) && lastNonopt == old(lastNonopt)
      ensures !old(Valid(argv, optstring)) ==>
                && args == argv[..] && base == Min(old(firstNonopt), optind) && done.opts == []
                && whole == Resumed(optstring, argv[..], old(firstNonopt), old(lastNonopt), optind)
    {
      hide Layout, ScanFrom, Scanned.Then;
      if Placed(argv) {
        SplitsWithin(done, base, optind, |args|);
      }
      hide Splits, Assumed;
      if !Valid(argv, optstring) {
        args, base, done := argv[..], Min(firstNonopt, optind), Assumed(firstNonopt, lastNonopt, optind);
        whole := Resumed(optstring, args, firstNonopt, lastNonopt, optind);
        AssumedLayout(args, firstNonopt, lastNonopt, optind);
      }
      if lastNonopt > optind { lastNonopt := optind; }
      if firstNonopt > optind { firstNonopt := optind; }
    }

    // Move the options just scanned before the other arguments, if both exist.
    method Settle(argv: array<string>)
      requires Placed(argv)
      modifies argv, this`firstNonopt, this`lastNonopt
      ensures firstNonopt == base + |done.options|
      ensures argv[..] == Layout(args, done, base, |done.options|, optind)
    {
      hide Splits, Layout, Rotated;
      SplitsSizes(done, base, optind);
      if firstNonopt != lastNonopt && lastNonopt != optind {
        ExchangeMoves(args, done, base, firstNonopt - base, optind);
        Exchange(argv);
      } else {
        if firstNonopt == lastNonopt { NothingToMove(args, done, base, firstNonopt - base, optind); }
        if lastNonopt != optind { firstNonopt := optind; }
      }
    }

    // Pass over the arguments that are no options.
    method Skip(argv: array<string>, optstring: string)
      requires 1 <= base <= optind <= |args| == argv.Length && Splits(done, base, optind)
      requires argv[..] == Layout(args, done, base, |done.options|, optind)
      requires done.Then(ScanFrom(optstring, args, optind, "")) == whole
      modifies this`optind, this`lastNonopt, this`done
      ensures base <= optind <= |args| && Splits(done, base, optind) && lastNonopt == optind
      ensures argv[..] == Layout(args, done, base, |done.options|, optind)
      ensures done.Then(ScanFrom(optstring, args, optind, "")) == whole
      ensures done.opts == old(done.opts) && done.options == old(done.options)
      ensures optind < |args| ==> argv[optind] == args[optind] && !NonOption(args[optind])
    {
      hide Splits, Layout, ScanFrom, NonOption, Scanned.Then;
      while optind < argv.Length && NonOption(argv[optind])
        invariant base <= optind <= |args| && Splits(done, base, optind)
        invariant argv[..] == Layout(args, done, base, |done.options|, optind)
        invariant done.Then(ScanFrom(optstring, args, optind, "")) == whole
        invariant done.opts == old(done.opts) && done.options == old(done.options)
        modifies this`optind, this`done
        decreases argv.Length - optind
      {
        assert argv[..][optind..][0] == args[optind..][0];
        SkipScans(optstring, args, done, optind);
        OthersStay(args, done, base, optind, optind + 1);
        done := MoreOthers(done, optind, optind + 1);
        optind := optind + 1;
      }
      if optind < argv.Length { assert argv[..][optind..][0] == args[optind..][0]; }
      lastNonopt := optind;
    }

    // The "--" element: an option of its own, after which everything is an argument.
    method StopAtDashes(argv: array<string>, optstring: string)
      requires 1 <= base <= optind < |args| == argv.Length && args[optind] == "--" && Splits(done, base, optind)
      requires firstNonopt == base + |done.options| && lastNonopt == optind
      requires argv[..] == Layout(args, done, base, |done.options|, optind)
      requires done.Then(ScanFrom(optstring, args, optind, "")) == whole
      modifies argv, this`firstNonopt, this`lastNonopt, this`optind, this`done
      ensures optind == lastNonopt == |args| && Splits(done, base, |args|) && done == whole
      ensures firstNonopt == base + |done.options| && done.opts == old(done.opts)
      ensures argv[..] == Layout(args, done, base, |done.options|, |args|)
    {
      hide Splits, Layout, Rotated, ScanFrom, Scanned.Then;
      DashesScan(optstring, args, done, optind);
      OptionsStay(args, done, base, |done.options|, optind, optind + 1);
      SplitsSizes(done, base, optind);
      done := MoreOptions(done, optind, optind + 1);
      optind := optind + 1;
      if firstNonopt != lastNonopt && lastNonopt != optind {
        ExchangeMoves(args, done, base, firstNonopt - base, optind);
        Exchange(argv);
      } else if firstNonopt == lastNonopt {
        NothingToMove(args, done, base, firstNonopt - base, optind);
        firstNonopt := optind;
      }
      OthersStay(args, done, base, optind, argv.Length);
      done := MoreOthers(done, optind, argv.Length);
      lastNonopt := argv.Length;
      optind := argv.Length;
    }

    lemma ItIsFinished(argv: array<string>, optstring: string)
      requires initialized && 1 <= base <= |args| && nextchar == "" && done == whole && Splits(done, base, |args|)
      requires Within(done.options, |args|) && Within(done.others, |args|)
      requires argv[..] == args[..base] + Pick(args, done.options) + Pick(args, done.others)
      requires optind == base + |done.options| <= firstNonopt <= lastNonopt
      ensures Finished(argv, optstring)
    {
    }

    // Lines 554-621: find the next option element, or the end.
    method NextElement(argv: array<string>, optstring: string) returns (end: bool)
      requires Valid(argv, optstring) && nextchar == ""
      modifies argv, this`firstNonopt, this`lastNonopt, this`optind, this`done, this`nextchar
      ensures done.opts == old(done.opts)
      ensures end ==> Finished(argv, optstring)
      ensures !end ==> Valid(argv, optstring) && nextchar != ""
    {
      hide Splits, Layout, ScanFrom, Scanned.Then, Finished;
      Settle(argv);
      Skip(argv, optstring);
      if optind != argv.Length && argv[optind] == "--" {
        StopAtDashes(argv, optstring);
      }
      SplitsSizes(done, base, optind);
      if optind == argv.Length {
        EndScans(optstring, args, base, done);
        if firstNonopt != lastNonopt { optind := firstNonopt; }
        ItIsFinished(argv, optstring);
        return true;
      }
      ElementScans(optstring, args, done, optind);
      nextchar := argv[optind][1..];
      return false;
    }

    // Lines 867-1165: decode one option character.
    method ShortOption(argv: array<string>, optstring: string) returns (c: char)
      requires nextchar != "" && optind < |args| == argv.Length && argv[..][optind..] == args[optind..]
      modifies this`optind, this`nextchar, this`optarg, this`optopt
      ensures old(optind) <= optind
      ensures Decoded(Opt(c, optarg), nextchar, optind - old(optind)) ==
        Decode(optstring, args, old(optind), old(nextchar))
      ensures optopt ==
        if Rejected(optstring, args, old(optind), old(nextchar)) then old(nextchar)[0] else old(optopt)
    {
      ghost var i := optind;
      ShortCases(optstring, args, i, nextchar);
      hide Declares, Rejected, Decode, KindOf;
      c := nextchar[0];
      nextchar := nextchar[1..];
      optarg := None;
      var temp := IndexOf(optstring, c);
      if nextchar == "" { optind := optind + 1; }
      if temp == |optstring| || c == ':' {
        optopt := c;
        c := '?';
      } else if temp + 1 < |optstring| && optstring[temp + 1] == ':' {
        if temp + 2 < |optstring| && optstring[temp + 2] == ':' {
          if nextchar != "" {
            optarg := Some(nextchar);
            optind := optind + 1;
          }
        } else if nextchar != "" {
          optarg := Some(nextchar);
          optind := optind + 1;
        } else if optind == argv.Length {
          optopt := c;
          c := if optstring != "" && optstring[0] == ':' then ':' else '?';
        } else {
          assert argv[optind] == argv[..][i..][1] == args[i..][1];
          optarg := Some(argv[optind]);
          optind := optind + 1;
        }
        nextchar := "";
      }
    }

    // One decoded character, accounted for.
    method TakeOption(argv: array<string>, optstring: string) returns (c: char)
      requires Valid(argv, optstring) && nextchar != ""
      modifies this`optind, this`nextchar, this`optarg, this`optopt, this`done
      ensures Valid(argv, optstring)
      ensures done.opts == old(done.opts) + [Opt(c, optarg)]
    {
      hide Splits, Layout, ScanFrom, Decode, Scanned.Then, Interval;
      CharacterScans(optstring, args, done, optind, nextchar);
      ghost var i, was := optind, done;
      c := ShortOption(argv, optstring);
      OptionsStay(args, was, base, firstNonopt - base, i, optind);
      done := Scanned(was.opts + [Opt(c, optarg)], was.options + Interval(i, optind), was.others);
      SplitsIgnoresOpts(args, done, MoreOptions(was, i, optind), base, firstNonopt - base, optind);
    }

    lemma CallCases(argv: array<string>, optstring: string)
      requires argv.Length > 0 && Callable(argv, optstring)
      ensures Valid(argv, optstring) ==> initialized && optind > 0
      ensures !initialized || optind == 0 ==>
                && optind <= argv.Length
                && BeginsAt() == (if optind == 0 then 1 else optind)
                && Beginning(argv, optstring) == ScanFrom(optstring, argv[..], BeginsAt(), "")
      ensures initialized && optind > 0 && !Valid(argv, optstring) ==>
                && Resumable(argv) && firstNonopt <= lastNonopt && optind <= argv.Length
                && BeginsAt() == Min(firstNonopt, optind)
                && Beginning(argv, optstring) == Resumed(optstring, argv[..], firstNonopt, lastNonopt, optind)
    {
    }

    lemma StartIsFresh(argv: array<string>, optstring: string)
      requires args == [] && nextchar == "" && 1 <= optind == firstNonopt == lastNonopt <= argv.Length
      ensures !Valid(argv, optstring) && Resumable(argv) && Min(firstNonopt, optind) == optind
      ensures Resumed(optstring, argv[..], firstNonopt, lastNonopt, optind) == ScanFrom(optstring, argv[..], optind, "")
    {
      ResumedFresh(optstring, argv[..], firstNonopt, lastNonopt, optind);
    }

    // A call with the static state initialized.
    method Step(argv: array<string>, optstring: string) returns (c: Option<char>)
      requires initialized && (Valid(argv, optstring) || Resumable(argv))
      modifies this, argv
      ensures old(Valid(argv, optstring)) ==> args == old(args) && base == old(base) && whole == old(whole)
      ensures !old(Valid(argv, optstring)) ==>
                && args == old(argv[..]) && base == Min(old(firstNonopt), old(optind))
                && whole == Resumed(optstring, old(argv[..]), old(firstNonopt), old(lastNonopt), old(optind))
      ensures if c.None? then Finished(argv, optstring) else Valid(argv, optstring)
      ensures done.opts == (if old(Valid(argv, optstring)) then old(done.opts) else [])
                           + if c.None? then [] else [Opt(c.value, optarg)]
    {
      hide *;
      ResumableParts(argv);
      if nextchar == "" {
        Resume(argv, optstring);
        var end := NextElement(argv, optstring);
        if end { return None; }
      }
      var option := TakeOption(argv, optstring);
      return Some(option);
    }

    lemma ResumableParts(argv: array<string>)
      ensures Resumable(argv) ==> nextchar == "" && firstNonopt <= lastNonopt && optind <= argv.Length
    {
    }

    /** _getopt_internal: None is the -1 that ends the scan. */
    method Next(argv: array<string>, optstring: string) returns (c: Option<char>)
      requires Plain(optstring) && Callable(argv, optstring)
      modifies this, argv
      ensures argv.Length == 0 ==> c == None && unchanged(this)
      ensures argv.Length > 0 && old(Valid(argv, optstring)) ==>
                args == old(args) && base == old(base) && whole == old(whole)
      ensures argv.Length > 0 && !old(Valid(argv, optstring)) ==>
                args == old(argv[..]) && base == old(BeginsAt()) && whole == old(Beginning(argv, optstring))
      ensures argv.Length > 0 ==> if c.None? then Finished(argv, optstring) else Valid(argv, optstring)
      ensures argv.Length > 0 ==>
                done.opts == (if old(Valid(argv, optstring)) then old(done.opts) else [])
                             + if c.None? then [] else [Opt(c.value, optarg)]
    {
      if argv.Length < 1 { return None; }
      hide *;
      CallCases(argv, optstring);
      optarg := None;
      if optind == 0 || !initialized {
        Initialize();
        StartIsFresh(argv, optstring);
      }
      c := Step(argv, optstring);
    }
  }

  lemma CharacterScans(optstring: string, a: seq<string>, d: Scanned, i: nat, rest: string)
    requires i < |a| && rest != ""
    ensures var e := Decode(optstring, a, i, rest);
            d.Then(ScanFrom(optstring, a, i, rest))
            == Scanned(d.opts + [e.opt], d.options + Interval(i, i + e.consumed), d.others)
                 .Then(ScanFrom(optstring, a, i + e.consumed, e.rest))
  {
    var e := Decode(optstring, a, i, rest);
    ScanDecoded(optstring, a, i, rest);
    assert Pending(a, i, rest) == rest;
    hide *;
    ThenOption(d, e.opt, Interval(i, i + e.consumed), ScanFrom(optstring, a, i + e.consumed, e.rest));
  }

  lemma ThenOption(d: Scanned, opt: Opt, options: seq<nat>, t: Scanned)
    ensures d.Then(Scanned([opt], options, []).Then(t)) ==
      Scanned(d.opts + [opt], d.options + options, d.others).Then(t)
  {
  }

  lemma SplitsIgnoresOpts<T>(a: seq<T>, d: Scanned, e: Scanned, lo: nat, early: nat, hi: nat)
    requires d.options == e.options && d.others == e.others && Splits(e, lo, hi)
    requires hi <= |a| && early <= |e.options|
    ensures Splits(d, lo, hi) && Layout(a, d, lo, early, hi) == Layout(a, e, lo, early, hi)
  {
  }

  lemma DashesScan(optstring: string, a: seq<string>, d: Scanned, i: nat)
    requires i < |a| && a[i] == "--"
    ensures d.Then(ScanFrom(optstring, a, i, "")) == MoreOthers(MoreOptions(d, i, i + 1), i + 1, |a|)
  {
    assert Interval(i, i + 1) == [i];
  }

  // At the end of the scan every element is accounted for.
  lemma EndScans(optstring: string, a: seq<string>, base: nat, d: Scanned)
    requires base <= |a| && Splits(d, base, |a|)
    ensures d.Then(ScanFrom(optstring, a, |a|, "")) == d
    ensures Within(d.options, |a|) && Within(d.others, |a|) && base + |d.options| + |d.others| == |a|
    ensures Layout(a, d, base, |d.options|, |a|) == a[..base] + Pick(a, d.options) + Pick(a, d.others)
  {
    ThenNothing(d);
    SplitsWithin(d, base, |a|, |a|);
    LayoutSettled(a, d, base, |a|);
    hide Layout, Splits, Pick, Within;
    assert a[|a|..] == [];
  }

  // A fresh option element scans like the characters after its dash.
  lemma ElementScans(optstring: string, a: seq<string>, d: Scanned, i: nat)
    requires i < |a| && !NonOption(a[i]) && a[i] != "--"
    ensures a[i][1..] != "" && ScanFrom(optstring, a, i, "") == ScanFrom(optstring, a, i, a[i][1..])
  {
  }

  lemma ThenNothing(s: Scanned)
    ensures NOTHING.Then(s) == s && s.Then(NOTHING) == s
  {
  }

  // One argument that is no option, scanned.
  lemma SkipScans(optstring: string, a: seq<string>, d: Scanned, i: nat)
    requires i < |a| && NonOption(a[i])
    ensures d.Then(ScanFrom(optstring, a, i, "")) == MoreOthers(d, i, i + 1).Then(ScanFrom(optstring, a, i + 1, ""))
  {
    ScanOther(optstring, a, i);
    MoreIsThen(d, i, i + 1);
    assert Interval(i, i + 1) == [i];
    hide *;
    ThenAssoc(d, Scanned([], [], [i]), ScanFrom(optstring, a, i + 1, ""));
  }

  lemma SplitsSizes(d: Scanned, lo: nat, hi: nat)
    requires Splits(d, lo, hi)
    ensures |d.options| + |d.others| + lo == hi
  {
  }

  lemma EmptyRotation<T>(s: seq<T>, bottom: nat, middle: nat, top: nat)
    requires bottom <= middle <= top <= |s| && (bottom == middle || middle == top)
    ensures Rotated(s, bottom, middle, top) == s
  {
  }

  // ---------------------------------------------------------------- the whole command line

  // What permuting a command line makes of it.
  function Permuted(optstring: string, a: seq<string>): (s: seq<string>)
    requires a != [] && Splits(Scan(optstring, a), 1, |a|)
  {
    a[..1] + Pick(a, Scan(optstring, a).options) + Pick(a, Scan(optstring, a).others)
  }

  ghost predicate Keeps<T>(a: seq<T>, s: Scanned, lo: nat) {
    && lo <= |a| && Splits(s, lo, |a|)
    && multiset(Pick(a, s.options)) + multiset(Pick(a, s.others)) == multiset(a[lo..])
  }

  lemma {:induction false} ScanKeepsElements(optstring: string, a: seq<string>, i: nat, rest: string)
    requires i <= |a| && (rest != "" ==> i < |a|)
    ensures Keeps(a, ScanFrom(optstring, a, i, rest), i)
    decreases |a| - i, if rest != "" then |rest| else if i < |a| then |a[i]| else 0
  {
    hide Splits, Keeps, Decode, ScanFrom, Interval, Scanned.Then;
    if rest == "" && i == |a| {
      ScanStops(optstring, a, i);
      NothingKeeps(a);
    } else if rest == "" && a[i] == "--" {
      ScanStops(optstring, a, i);
      DashesKeep(a, i);
    } else if rest == "" && NonOption(a[i]) {
      ScanOther(optstring, a, i);
      ScanKeepsElements(optstring, a, i + 1, "");
      OthersKeep(a, ScanFrom(optstring, a, i + 1, ""), i, i + 1);
      assert Interval(i, i + 1) == [i];
    } else {
      var d := Decode(optstring, a, i, Pending(a, i, rest));
      ScanDecoded(optstring, a, i, rest);
      ScanKeepsElements(optstring, a, i + d.consumed, d.rest);
      OptionsKeep(a, ScanFrom(optstring, a, i + d.consumed, d.rest), [d.opt], i, i + d.consumed);
    }
  }

  lemma NothingKeeps<T>(a: seq<T>)
    ensures Keeps(a, NOTHING, |a|)
  {
    assert Pick(a, []) == [] && a[|a|..] == [];
  }

  lemma DashesKeep<T>(a: seq<T>, i: nat)
    requires i < |a|
    ensures Keeps(a, Scanned([], [i], Interval(i + 1, |a|)), i)
  {
    hide *;
    NothingKeeps(a);
    OthersKeep(a, NOTHING, i + 1, |a|);
    OptionsKeep(a, Scanned([], [], Interval(i + 1, |a|)).Then(NOTHING), [], i, i + 1);
    DashesThen(i, |a|);
  }

  lemma DashesThen(i: nat, n: nat)
    requires i < n
    ensures Scanned([], Interval(i, i + 1), []).Then(Scanned([], [], Interval(i + 1, n)).Then(NOTHING))
         == Scanned([], [i], Interval(i + 1, n))
  {
    assert Interval(i, i + 1) == [i];
  }

  lemma PickAfter<T>(a: seq<T>, lo: nat, hi: nat, indices: seq<nat>)
    requires lo <= hi <= |a| && Within(indices, |a|)
    ensures Within(Interval(lo, hi) + indices, |a|)
    ensures Pick(a, Interval(lo, hi) + indices) == a[lo..hi] + Pick(a, indices)
    ensures a[lo..] == a[lo..hi] + a[hi..]
  {
    PickInterval(a, lo, hi);
    hide Interval;
    PickJoin(a, Interval(lo, hi), indices);
  }

  lemma KeepsParts<T>(a: seq<T>, s: Scanned, lo: nat)
    requires Keeps(a, s, lo)
    ensures lo <= |a| && Splits(s, lo, |a|) && Within(s.options, |a|) && Within(s.others, |a|)
    ensures multiset(Pick(a, s.options)) + multiset(Pick(a, s.others)) == multiset(a[lo..])
  {
    SplitsWithin(s, lo, |a|, |a|);
  }

  lemma KeepsWhole<T>(a: seq<T>, s: Scanned, lo: nat, x: seq<T>, y: seq<T>)
    requires lo <= |a| && Splits(s, lo, |a|) && Within(s.options, |a|) && Within(s.others, |a|)
    requires x == Pick(a, s.options) && y == Pick(a, s.others) && multiset(x) + multiset(y) == multiset(a[lo..])
    ensures Keeps(a, s, lo)
  {
  }

  lemma MoreElements<T>(m: seq<T>, x: seq<T>, y: seq<T>, z: seq<T>)
    requires multiset(x) + multiset(y) == multiset(z)
    ensures multiset(m + x) + multiset(y) == multiset(m + z) == multiset(x) + multiset(m + y)
  {
  }

  lemma ThenParts(opts: seq<Opt>, indices: seq<nat>, t: Scanned)
    ensures Scanned(opts, indices, []).Then(t) == Scanned(opts + t.opts, indices + t.options, t.others)
    ensures Scanned([], [], indices).Then(t) == Scanned(t.opts, t.options, indices + t.others)
  {
  }

  lemma OthersKeep<T>(a: seq<T>, t: Scanned, lo: nat, hi: nat)
    requires lo <= hi <= |a| && Keeps(a, t, hi)
    ensures Keeps(a, Scanned([], [], Interval(lo, hi)).Then(t), lo)
  {
    hide *;
    KeepsParts(a, t, hi);
    IntervalSplits([], lo, hi);
    SplitsThen(Scanned([], [], Interval(lo, hi)), t, lo, hi, |a|);
    ThenParts([], Interval(lo, hi), t);
    PickAfter(a, lo, hi, t.others);
    MoreElements(a[lo..hi], Pick(a, t.options), Pick(a, t.others), a[hi..]);
    KeepsWhole(a, Scanned([], [], Interval(lo, hi)).Then(t), lo, Pick(a, t.options), a[lo..hi] + Pick(a, t.others));
  }

  lemma OptionsKeep<T>(a: seq<T>, t: Scanned, opts: seq<Opt>, lo: nat, hi: nat)
    requires lo <= hi <= |a| && Keeps(a, t, hi)
    ensures Keeps(a, Scanned(opts, Interval(lo, hi), []).Then(t), lo)
  {
    hide *;
    KeepsParts(a, t, hi);
    IntervalSplits(opts, lo, hi);
    SplitsThen(Scanned(opts, Interval(lo, hi), []), t, lo, hi, |a|);
    ThenParts(opts, Interval(lo, hi), t);
    PickAfter(a, lo, hi, t.options);
    MoreElements(a[lo..hi], Pick(a, t.options), Pick(a, t.others), a[hi..]);
    KeepsWhole(a, Scanned(opts, Interval(lo, hi), []).Then(t), lo, a[lo..hi] + Pick(a, t.options), Pick(a, t.others));
  }

  /** The permuted command line is a permutation of the original one: the program name, then
      the option elements with their arguments and any "--", then the rest, both groups in
      ascending order of their original positions. */
  lemma {:induction false} PermutedIsStable(optstring: string, a: seq<string>)
    requires a != []
    ensures var s := Scan(optstring, a);
            && Splits(s, 1, |a|) && Ascending(s.options, 1, |a|) && Ascending(s.others, 1, |a|)
            && multiset(Permuted(optstring, a)) == multiset(a)
  {
    ScanSplits(optstring, a, 1, "");
    ScanKeepsElements(optstring, a, 1, "");
    assert a == a[..1] + a[1..];
  }

  /** Calling getopt until it returns -1, as the main program of kmeans.c does. */
  method ParseAll(argv: array<string>, optstring: string) returns (opts: seq<Opt>, first: nat)
    requires Plain(optstring)
    modifies argv
    ensures argv.Length == 0 ==> opts == [] && first == 1
    ensures argv.Length > 0 ==>
              && opts == Scan(optstring, old(argv[..])).opts
              && Splits(Scan(optstring, old(argv[..])), 1, argv.Length)
              && argv[..] == Permuted(optstring, old(argv[..]))
              && first == 1 + |Scan(optstring, old(argv[..])).options|
  {
    ghost var a := argv[..];
    var parser := new Parser();
    opts := [];
    if argv.Length == 0 { return [], parser.optind; }
    assert !parser.Valid(argv, optstring);
    hide Splits, ScanFrom, Parser.Valid;
    var c := parser.Next(argv, optstring);
    while c.Some?
      invariant fresh(parser) && parser.args == a && parser.base == 1 && parser.whole == Scan(optstring, a)
      invariant c.Some? ==> parser.Valid(argv, optstring) && parser.done.opts == opts + [Opt(c.value, parser.optarg)]
      invariant c.Some? ==> parser.Callable(argv, optstring) && |parser.done.opts| <= |parser.whole.opts|
      invariant c.None? ==> parser.Finished(argv, optstring) && parser.done.opts == opts
      decreases c.Some?, |Scan(optstring, a).opts| - |opts|
    {
      opts := opts + [Opt(c.value, parser.optarg)];
      c := parser.Next(argv, optstring);
    }
    first := parser.optind;
  }
}
