/** The shared player-data context: turning the monthly archive URLs of the
    chess.com API into the dates the heatmap and game list fetch. */
module ChessDataContext {
  import opened Common

  /** `url.split("/").slice(-2).join("/")`: the last two `/`-separated pieces. */
  function LastTwo(url: string): string
  {
    var parts := Split(url, '/');
    Join(parts[Max(0, |parts| - 2)..], '/')
  }

  /** With fewer than two `/` the URL comes back whole. */
  lemma LastTwoShort(url: string)
    requires Count(url, '/') < 2
    ensures LastTwo(url) == url
  {
    var parts := Split(url, '/');
    SplitPieces(url, '/');
    assert parts[0..] == parts;
    JoinSplit(url, '/');
  }

  /** With two or more, the URL is some head, a `/`, and the result, which
      holds exactly one `/`. */
  lemma LastTwoLong(url: string) returns (head: string)
    requires Count(url, '/') >= 2
    ensures url == head + ['/'] + LastTwo(url)
    ensures Count(LastTwo(url), '/') == 1
  {
    var parts := Split(url, '/');
    SplitPieces(url, '/');
    var k := |parts|;
    var tail := parts[k - 2..];
    JoinSplit(url, '/');
    JoinAt(parts, k - 2, '/');
    head := Join(parts[..k - 2], '/');
    assert forall i :: 0 <= i < |tail| ==> tail[i] == parts[k - 2 + i];
    JoinCount(tail, '/');
  }

  /** The end of `h + [c] + r` is `r`, right after a `c`. */
  lemma SuffixAfter(h: string, c: char, r: string)
    ensures var u := h + [c] + r;
            u[|u| - |r|..] == r && u[|u| - |r| - 1] == c
  {
  }

  /** The result is the end of the URL, holds at most one `/`, is the whole
      URL when it has fewer than two, and otherwise starts right after a `/`. */
  lemma LastTwoIsSuffix(url: string)
    ensures var r := LastTwo(url);
            |r| <= |url| && r == url[|url| - |r|..] && Count(r, '/') <= 1 &&
            (Count(url, '/') < 2 ==> r == url) &&
            (Count(url, '/') >= 2 ==> Count(r, '/') == 1 && url[|url| - |r| - 1] == '/')
  {
    if Count(url, '/') < 2 {
      LastTwoShort(url);
      assert url[0..] == url;
    } else {
      var head := LastTwoLong(url);
      SuffixAfter(head, '/', LastTwo(url));
    }
  }

  /** The position of the first separator. */
  function FirstSeparator(s: string, c: char): (i: nat)
    requires c in s
    ensures i < |s| && s[i] == c && c !in s[..i]
  {
    if s[0] == c then 0
    else
      var i := FirstSeparator(s[1..], c);
      assert s[..i + 1] == [s[0]] + s[1..][..i];
      i + 1
  }

  /** The step of `SplitConcat`: a separator-free piece in front. */
  lemma SplitConcatPiece(p: string, q: string, b: string, c: char)
    requires c !in p
    requires Split(q + [c] + b, c) == Split(q, c) + Split(b, c)
    ensures Split(p + [c] + (q + [c] + b), c) == Split(p + [c] + q, c) + Split(b, c)
  {
    SplitPiece(p, q + [c] + b, c);
    SplitPiece(p, q, c);
    Associative([p], Split(q, c), Split(b, c));
  }

  /** Splitting at a separator splits both sides. */
  lemma {:induction false} SplitConcat(a: string, b: string, c: char)
    ensures Split(a + [c] + b, c) == Split(a, c) + Split(b, c)
    decreases |a|
  {
    if c !in a {
      SplitPiece(a, b, c);
      SplitPiece(a, [], c);
      assert a + [] == a;
      assert a + "" == a;
    } else {
      var i := FirstSeparator(a, c);
      var p, q := a[..i], a[i + 1..];
      assert a == p + [c] + q;
      assert a + [c] + b == p + [c] + (q + [c] + b);
      SplitConcat(q, b, c);
      SplitConcatPiece(p, q, b, c);
    }
  }

  /** A monthly archive URL `.../YYYY/MM` gives `YYYY/MM`. */
  lemma ArchiveDate(prefix: string, year: string, month: string)
    requires '/' !in year && '/' !in month
    ensures LastTwo(prefix + "/" + year + "/" + month) == year + "/" + month
  {
    var date := year + "/" + month;
    assert Join([year, month], '/') == date;
    SplitJoin([year, month], '/');
    var url := prefix + "/" + year + "/" + month;
    assert url == prefix + ['/'] + date;
    SplitConcat(prefix, date, '/');
    var parts := Split(url, '/');
    assert parts == Split(prefix, '/') + [year, month];
    assert parts[|parts| - 2..] == [year, month];
  }

  /** `extractDatesFromArchives`: one date per archive, in the same order. */
  function ExtractDates(archives: seq<string>): (dates: seq<string>)
    ensures |dates| == |archives|
    ensures forall i :: 0 <= i < |archives| ==> dates[i] == LastTwo(archives[i])
  {
    seq(|archives|, i requires 0 <= i < |archives| => LastTwo(archives[i]))
  }
}
