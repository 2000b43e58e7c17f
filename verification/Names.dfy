/** Segment file names: the `%020d` prefix of core/log.go and its inverse in
    internal/utils/strings.go, with the directory order that `os.ReadDir` lists them in. */
module Names {
  import opened Bytes

  const NAME_WIDTH := 20

  function Pow10(width: nat): (r: nat)
    ensures r > 0
  {
    if width == 0 then 1 else 10 * Pow10(width - 1)
  }

  function Digit(d: nat): (c: char)
    requires d < 10
  {
    '0' + d as char
  }

  predicate IsDigit(c: char) {
    '0' <= c <= '9'
  }

  function DigitValue(c: char): (d: nat)
    requires IsDigit(c)
    ensures d < 10
  {
    (c - '0') as int
  }

  /** `fmt.Sprintf("%0<width>d", n)` for an `n` that fits the width. */
  function Padded(width: nat, n: nat): (s: string)
    ensures |s| == width
    ensures forall i :: 0 <= i < |s| ==> IsDigit(s[i])
  {
    if width == 0 then "" else Padded(width - 1, n / 10) + [Digit(n % 10)]
  }

  function LogFile(base: nat): string {
    Padded(NAME_WIDTH, base) + ".log"
  }

  /** `utils.ChangeExt(path, ".index")` on a log path. */
  function IndexFile(base: nat): string {
    Padded(NAME_WIDTH, base) + ".index"
  }

  /** A file of a partition directory, and the name it is stored under. */
  datatype File = LogOf(base: nat) | IndexOf(base: nat)

  function NameOf(f: File): string {
    match f
    case LogOf(base) => LogFile(base)
    case IndexOf(base) => IndexFile(base)
  }

  predicate IsLogName(name: string) {
    |name| >= 4 && name[|name| - 4..] == ".log"
  }

  function DecimalValue(s: string): nat
    requires forall i :: 0 <= i < |s| ==> IsDigit(s[i])
  {
    if s == "" then 0 else 10 * DecimalValue(s[..|s| - 1]) + DigitValue(s[|s| - 1])
  }

  /** The first part of `strings.Split(name, ".")`. */
  function BeforeDot(name: string): (s: string)
    ensures |s| <= |name| && s == name[..|s|]
    ensures '.' !in s
    ensures |s| < |name| ==> name[|s|] == '.'
  {
    if name == "" || name[0] == '.' then "" else
    var rest := BeforeDot(name[1..]);
    assert name == [name[0]] + name[1..];
    [name[0]] + rest
  }

  function DigitRun(s: string): (d: string)
    ensures |d| <= |s| && d == s[..|d|]
    ensures forall i :: 0 <= i < |d| ==> IsDigit(d[i])
    ensures |d| < |s| ==> !IsDigit(s[|d|])
  {
    if s == "" || !IsDigit(s[0]) then "" else
    var rest := DigitRun(s[1..]);
    assert s == [s[0]] + s[1..];
    [s[0]] + rest
  }

  /** `utils.BaseOffsetFromFilename`: 0 for a name without an extension, for one that does not
      start with a digit, and for a number that does not fit an int64. */
  function BaseOffsetFromFilename(name: string): nat {
    var stem := BeforeDot(name);
    if |stem| == |name| then 0
    else
      var v := DecimalValue(DigitRun(stem));
      if v < TWO_63 then v else 0
  }

  lemma {:induction false} PaddedValue(width: nat, n: nat)
    requires n < Pow10(width)
    ensures DecimalValue(Padded(width, n)) == n
  {
    if width > 0 {
      PaddedValue(width - 1, n / 10);
      var s := Padded(width, n);
      assert s[..|s| - 1] == Padded(width - 1, n / 10);
    }
  }

  lemma NameWidthSuffices()
    ensures TWO_63 < Pow10(NAME_WIDTH)
  {
    assert Pow10(5) == 100_000;
    assert Pow10(10) == 100_000 * Pow10(5);
    assert Pow10(15) == 100_000 * Pow10(10);
    assert Pow10(20) == 100_000 * Pow10(15);
  }

  lemma StemOf(stem: string, ext: string)
    requires forall i :: 0 <= i < |stem| ==> IsDigit(stem[i])
    requires ext != "" && ext[0] == '.'
    ensures BeforeDot(stem + ext) == stem
    ensures DigitRun(stem) == stem
  {
    var s := BeforeDot(stem + ext);
    assert (stem + ext)[|stem|] == '.';
    assert forall i :: 0 <= i < |stem| ==> (stem + ext)[i] == stem[i];
    assert forall i :: 0 <= i < |s| ==> s[i] == (stem + ext)[i];
  }

  lemma QuotientTwice(n: nat, m: nat)
    requires m > 0
    ensures (n / 10) / m == n / (10 * m)
  {
    var k := 10 * m;
    var q, r := n / k, n % k;
    assert n == k * q + r && 0 <= r < k;
    var t := n / 10;
    assert t == m * q + r / 10 by { assert n == 10 * (m * q) + r; }
    assert 0 <= r / 10 < m;
    QuotientIs(t, m, q, r / 10);
  }

  lemma QuotientIs(x: int, n: nat, q: int, r: int)
    requires n > 0 && x == n * q + r && 0 <= r < n
    ensures x / n == q
  {
    var d := x / n - q;
    assert n * d == r - x % n;
    assert d >= 1 ==> n * d >= n;
    assert d <= -1 ==> n * d <= 0 - n;
  }

  lemma {:induction false} PaddedDigit(width: nat, n: nat, i: nat)
    requires i < width
    ensures Padded(width, n)[i] == '0' + (n / Pow10(width - 1 - i) % 10) as char
  {
    if i < width - 1 {
      PaddedDigit(width - 1, n / 10, i);
      QuotientTwice(n, Pow10(width - 2 - i));
    }
  }

  /** A segment's name, character by character: twenty decimal digits of the base, most significant
      first, and the extension. */
  lemma NameLayout(base: nat, i: nat)
    requires i < 20
    ensures |LogFile(base)| == 24 && LogFile(base)[20..] == ".log"
    ensures |IndexFile(base)| == 26 && IndexFile(base)[20..] == ".index"
    ensures LogFile(base)[i] == IndexFile(base)[i] == '0' + (base / Pow10(19 - i) % 10) as char
  {
    PaddedDigit(NAME_WIDTH, base, i);
  }

  /** Parsing a segment's name gives back its base offset, for every int64 offset. */
  lemma NameRoundTrip(base: nat)
    requires base < TWO_63
    ensures BaseOffsetFromFilename(LogFile(base)) == base
    ensures BaseOffsetFromFilename(IndexFile(base)) == base
  {
    NameWidthSuffices();
    PaddedValue(NAME_WIDTH, base);
    StemOf(Padded(NAME_WIDTH, base), ".log");
    StemOf(Padded(NAME_WIDTH, base), ".index");
  }

  lemma NamesDiffer(a: nat, b: nat)
    requires a < TWO_63 && b < TWO_63
    ensures LogFile(a) != IndexFile(b)
    ensures IsLogName(LogFile(a)) && !IsLogName(IndexFile(b))
    ensures a != b ==> LogFile(a) != LogFile(b) && IndexFile(a) != IndexFile(b)
  {
    NameRoundTrip(a);
    NameRoundTrip(b);
    assert IndexFile(b)[22..] == "ndex";
    assert LogFile(a)[20..] == ".log";
  }

  /** Different files of a partition have different names, for all int64 base offsets. */
  lemma NamesInjective(f: File, g: File)
    requires f.base < TWO_63 && g.base < TWO_63
    ensures NameOf(f) == NameOf(g) <==> f == g
  {
    NamesDiffer(f.base, g.base);
    NamesDiffer(g.base, f.base);
  }

  // Directory order

  /** Byte-wise order of file names: the first difference decides, and a prefix comes first. */
  ghost predicate Less(a: string, b: string) {
    exists i :: LessAt(a, b, i)
  }

  ghost predicate LessAt(a: string, b: string, i: int) {
    && 0 <= i < |b| && i <= |a|
    && a[..i] == b[..i]
    && (i < |a| ==> a[i] < b[i])
  }

  lemma LessAsymmetric(a: string, b: string)
    requires Less(a, b)
    ensures !Less(b, a) && a != b
  {
    var i :| LessAt(a, b, i);
    forall j
      ensures !LessAt(b, a, j)
    {
      assert 0 <= j < i ==> a[j] == a[..i][j] == b[..i][j];
      assert i < j <= |a| && j <= |b| ==> a[i] == a[..j][i] && b[i] == b[..j][i];
    }
  }

  lemma {:induction false} PaddedOrder(width: nat, a: nat, b: nat) returns (i: nat)
    requires a < b < Pow10(width)
    ensures i < width && LessAt(Padded(width, a), Padded(width, b), i)
  {
    var s, t := Padded(width, a), Padded(width, b);
    if a / 10 == b / 10 {
      i := width - 1;
      assert s[..i] == Padded(width - 1, a / 10) == t[..i];
    } else {
      i := PaddedOrder(width - 1, a / 10, b / 10);
      assert s[..i] == Padded(width - 1, a / 10)[..i];
      assert t[..i] == Padded(width - 1, b / 10)[..i];
    }
  }

  lemma NameOrderForward(a: nat, b: nat, ext: string, ext': string)
    requires a < b < TWO_63
    ensures Less(Padded(NAME_WIDTH, a) + ext, Padded(NAME_WIDTH, b) + ext')
  {
    NameWidthSuffices();
    var i := PaddedOrder(NAME_WIDTH, a, b);
    var s, t := Padded(NAME_WIDTH, a), Padded(NAME_WIDTH, b);
    assert (s + ext)[..i] == s[..i] && (t + ext')[..i] == t[..i];
    assert LessAt(s + ext, t + ext', i);
  }

  /** Directory order of segment names is numeric order of their base offsets. */
  lemma NameOrder(a: nat, b: nat)
    requires a < TWO_63 && b < TWO_63
    ensures Less(LogFile(a), LogFile(b)) <==> a < b
    ensures Less(IndexFile(a), IndexFile(b)) <==> a < b
  {
    if a < b {
      NameOrderForward(a, b, ".log", ".log");
      NameOrderForward(a, b, ".index", ".index");
    } else if b < a {
      NameOrderForward(b, a, ".log", ".log");
      NameOrderForward(b, a, ".index", ".index");
      LessAsymmetric(LogFile(b), LogFile(a));
      LessAsymmetric(IndexFile(b), IndexFile(a));
    } else {
      if Less(LogFile(a), LogFile(b)) { LessAsymmetric(LogFile(a), LogFile(b)); }
      if Less(IndexFile(a), IndexFile(b)) { LessAsymmetric(IndexFile(a), IndexFile(b)); }
    }
  }

  // Reading a directory

  ghost predicate Sorted(listing: seq<string>) {
    forall i, j :: 0 <= i < j < |listing| ==> Less(listing[i], listing[j])
  }

  ghost predicate Increasing(xs: seq<nat>) {
    forall i, j :: 0 <= i < j < |xs| ==> xs[i] < xs[j]
  }

  /** The base offsets of the `.log` files of a listing, in listing order. */
  function ListedBases(listing: seq<string>): seq<nat> {
    if listing == [] then []
    else if IsLogName(listing[0]) then [BaseOffsetFromFilename(listing[0])] + ListedBases(listing[1..])
    else ListedBases(listing[1..])
  }

  lemma {:induction false} ListedSnoc(listing: seq<string>, name: string)
    ensures ListedBases(listing + [name]) ==
            ListedBases(listing) + if IsLogName(name) then [BaseOffsetFromFilename(name)] else []
  {
    if listing == [] {
      assert [name][1..] == [];
    } else {
      assert (listing + [name])[1..] == listing[1..] + [name];
      ListedSnoc(listing[1..], name);
    }
  }

  ghost predicate SegmentName(name: string, bases: seq<nat>) {
    exists b :: b in bases && (name == LogFile(b) || name == IndexFile(b))
  }

  /** `listing` is what `os.ReadDir` returns for a directory that holds the log of every base and
      nothing but logs and indexes of those bases. */
  ghost predicate Lists(listing: seq<string>, bases: seq<nat>) {
    && Sorted(listing)
    && (forall name :: name in listing ==> SegmentName(name, bases))
    && (forall b :: b in bases ==> LogFile(b) in listing)
  }

  lemma AllButLast(xs: seq<nat>, front: seq<nat>)
    requires xs != [] && Increasing(xs)
    requires front == xs[..|xs| - 1]
    ensures Increasing(front)
    ensures forall z :: z in front <==> z in xs && z < xs[|xs| - 1]
  {
    forall z | z in xs && z < xs[|xs| - 1]
      ensures z in front
    {
      var i :| 0 <= i < |xs| && xs[i] == z;
      assert front[i] == z;
    }
  }

  lemma {:induction false} IncreasingUnique(xs: seq<nat>, ys: seq<nat>)
    requires Increasing(xs) && Increasing(ys)
    requires forall x :: x in xs <==> x in ys
    ensures xs == ys
  {
    assert xs != [] ==> xs[0] in xs;
    assert ys != [] ==> ys[0] in ys;
    if xs != [] && ys != [] {
      var x, y := xs[|xs| - 1], ys[|ys| - 1];
      assert x in xs && y in ys;
      assert x == y by { assert x in ys && y in xs; }
      var xs', ys' := xs[..|xs| - 1], ys[..|ys| - 1];
      AllButLast(xs, xs');
      AllButLast(ys, ys');
      IncreasingUnique(xs', ys');
    }
  }

  lemma OnlyLogName(head: string, h: nat, b: nat)
    requires h < TWO_63 && b < TWO_63
    requires head == LogFile(h) || head == IndexFile(h)
    ensures LogFile(b) == head <==> IsLogName(head) && b == h
    ensures BaseOffsetFromFilename(head) == h
  {
    NameRoundTrip(h);
    NamesDiffer(h, h);
    NamesDiffer(b, h);
    NamesDiffer(h, b);
  }

  lemma {:induction false} ListedBasesOrdered(listing: seq<string>, bases: seq<nat>)
    requires Sorted(listing)
    requires forall b :: b in bases ==> b < TWO_63
    requires forall name :: name in listing ==> SegmentName(name, bases)
    ensures Increasing(ListedBases(listing))
    ensures forall b :: b in ListedBases(listing) <==> b in bases && LogFile(b) in listing
  {
    if listing != [] {
      var head, tail := listing[0], listing[1..];
      ListedBasesOrdered(tail, bases);
      assert SegmentName(head, bases);
      var h :| h in bases && (head == LogFile(h) || head == IndexFile(h));
      OnlyLogName(head, h, h);
      var rest := ListedBases(tail);
      assert ListedBases(listing) == if IsLogName(head) then [h] + rest else rest;
      forall b | b in bases
        ensures LogFile(b) in listing <==> LogFile(b) in tail || (IsLogName(head) && b == h)
        ensures b in rest && IsLogName(head) ==> h < b
      {
        OnlyLogName(head, h, b);
        HeadComesFirst(listing, h, b);
      }
      if IsLogName(head) {
        IncreasingCons(h, rest);
      }
    }
  }

  lemma IncreasingCons(h: nat, rest: seq<nat>)
    requires Increasing(rest) && forall b :: b in rest ==> h < b
    ensures Increasing([h] + rest)
  {
    assert forall i :: 0 <= i < |rest| ==> rest[i] in rest;
  }

  lemma HeadComesFirst(listing: seq<string>, h: nat, b: nat)
    requires Sorted(listing) && listing != [] && h < TWO_63 && b < TWO_63
    ensures LogFile(b) in listing <==> LogFile(b) in listing[1..] || LogFile(b) == listing[0]
    ensures LogFile(b) in listing[1..] && listing[0] == LogFile(h) ==> h < b
  {
    var name := LogFile(b);
    if name in listing[1..] && listing[0] == LogFile(h) {
      var k :| 0 <= k < |listing[1..]| && listing[1..][k] == name;
      assert Less(listing[0], listing[k + 1]);
      NameOrder(h, b);
    }
  }

  /** Loading a directory in listing order visits the segments in base-offset order, each once. */
  lemma ListingOrder(listing: seq<string>, bases: seq<nat>)
    requires Increasing(bases) && forall b :: b in bases ==> b < TWO_63
    requires Lists(listing, bases)
    ensures ListedBases(listing) == bases
  {
    ListedBasesOrdered(listing, bases);
    IncreasingUnique(ListedBases(listing), bases);
  }

  /** Files compare by base offset first, and index before log. */
  predicate FileBefore(f: File, g: File) {
    f.base < g.base || (f.base == g.base && f.IndexOf? && g.LogOf?)
  }

  lemma FileOrder(f: File, g: File)
    requires f.base < TWO_63 && g.base < TWO_63 && FileBefore(f, g)
    ensures Less(NameOf(f), NameOf(g))
  {
    if f.base < g.base {
      NameOrderForward(f.base, g.base, if f.LogOf? then ".log" else ".index", if g.LogOf? then ".log" else ".index");
    } else {
      var stem := Padded(NAME_WIDTH, f.base);
      assert (stem + ".index")[..NAME_WIDTH + 1] == stem + "." == (stem + ".log")[..NAME_WIDTH + 1];
      assert LessAt(stem + ".index", stem + ".log", NAME_WIDTH + 1);
    }
  }
}
