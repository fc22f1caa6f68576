/** The table of previous games: ten games per page, newest first, a pager
    over the pages, and the PGN clean-up done before a game is sent for review. */
module PreviousGames {
  import opened Common
  import opened Types

  /** Games per page. */
  const Limit: nat := 10

  // ---------------------------------------------------------------------
  // Pages
  // ---------------------------------------------------------------------

  /** `Math.ceil(games.length / limit)`. */
  function TotalPages(n: nat): (t: nat)
    ensures t * Limit >= n
    ensures t > 0 ==> (t - 1) * Limit < n
    ensures n == 0 <==> t == 0
  {
    (n + Limit - 1) / Limit
  }

  /** An index argument of `Array.prototype.slice`: negative counts from the
      end, and the result is clamped into the array. */
  function SliceIndex(i: int, len: nat): (r: nat)
    ensures r <= len
    ensures 0 <= i <= len ==> r == i
  {
    if i < 0 then Max(len + i, 0) else Min(i, len)
  }

  /** `s.slice(start, end)`. */
  function JsSlice<T>(s: seq<T>, start: int, end: int): (r: seq<T>)
    ensures 0 <= start <= end <= |s| ==> r == s[start..end]
    ensures 0 <= start <= |s| <= end ==> r == s[start..]
    ensures |s| <= start ==> r == []
  {
    var from := SliceIndex(start, |s|);
    var to := SliceIndex(end, |s|);
    if from < to then s[from..to] else []
  }

  /** `s.slice().reverse()`. */
  function Reverse<T>(s: seq<T>): (r: seq<T>)
    ensures |r| == |s|
    ensures forall i :: 0 <= i < |s| ==> r[i] == s[|s| - 1 - i]
  {
    if s == [] then [] else Reverse(s[1..]) + [s[0]]
  }

  /** The index where page `page` starts: the first of its block of ten. */
  function StartIndex(page: int): (r: int)
    ensures r % Limit == 0 && r / Limit == page - 1
    ensures page >= 1 <==> r >= 0
  {
    (page - 1) * Limit
  }

  /** `currentGames`: the page's window of the reversed list. Game `i` of
      page `p` is the `((p - 1) * 10 + i)`-th game counted from the end. */
  function CurrentGames(games: seq<Game>, page: int): (r: seq<Game>)
    ensures |r| <= Limit
    ensures page >= 1 ==> |r| == Max(0, Min(Limit, |games| - StartIndex(page)))
    ensures page >= 1 ==> forall i :: 0 <= i < |r| ==> r[i] == games[|games| - 1 - (StartIndex(page) + i)]
  {
    var start := StartIndex(page);
    JsSlice(Reverse(games), start, start + Limit)
  }

  /** The first page holds the input's last ten games, newest first. */
  lemma FirstPageIsLatest(games: seq<Game>)
    ensures CurrentGames(games, 1) == Reverse(games[|games| - Min(Limit, |games|)..])
  {
    var r := CurrentGames(games, 1);
    var last := games[|games| - Min(Limit, |games|)..];
    assert |r| == |Reverse(last)|;
    forall i | 0 <= i < |r|
      ensures r[i] == Reverse(last)[i]
    {
      assert Reverse(last)[i] == last[|last| - 1 - i];
    }
  }

  /** A page past the last one is empty. */
  lemma PagePastEndEmpty(games: seq<Game>, page: int)
    requires page > TotalPages(|games|)
    ensures CurrentGames(games, page) == []
  {
    assert StartIndex(page) >= TotalPages(|games|) * Limit;
  }

  /** Pages 1 to k, one after the other. */
  function Pages(games: seq<Game>, k: nat): seq<Game>
  {
    if k == 0 then [] else Pages(games, k - 1) + CurrentGames(games, k)
  }

  /** Page `k` is the window between the ends of pages `k - 1` and `k`. */
  lemma PageWindow(games: seq<Game>, k: nat)
    requires k >= 1
    ensures var n := |games|;
            CurrentGames(games, k) == Reverse(games)[Min((k - 1) * Limit, n)..Min(k * Limit, n)]
  {
    var rev, n := Reverse(games), |games|;
    var start := (k - 1) * Limit;
    assert StartIndex(k) == start && k * Limit == start + Limit;
    assert CurrentGames(games, k) == JsSlice(rev, start, start + Limit);
    if start + Limit <= n {
      assert JsSlice(rev, start, start + Limit) == rev[start..start + Limit];
    } else if start <= n {
      assert JsSlice(rev, start, start + Limit) == rev[start..n];
    } else {
      assert JsSlice(rev, start, start + Limit) == [] == rev[n..n];
    }
  }

  /** The first k pages are the first 10k games of the reversed list. */
  lemma {:induction false} PagesArePrefix(games: seq<Game>, k: nat)
    ensures Pages(games, k) == Reverse(games)[..Min(k * Limit, |games|)]
  {
    if k > 0 {
      PagesArePrefix(games, k - 1);
      PageWindow(games, k);
      var rev := Reverse(games);
      var a := Min((k - 1) * Limit, |games|);
      var b := Min(k * Limit, |games|);
      assert rev[..a] + rev[a..b] == rev[..b];
    }
  }

  /** Reading every page in order shows every game exactly once, newest first. */
  lemma AllPagesCover(games: seq<Game>)
    ensures Pages(games, TotalPages(|games|)) == Reverse(games)
  {
    PagesArePrefix(games, TotalPages(|games|));
  }

  // ---------------------------------------------------------------------
  // Pager
  // ---------------------------------------------------------------------

  /** A click on "Previous", on "Next", or on the item at `index`, which shows page `index + 1`. */
  datatype Click = PreviousClick | NextClick | ItemClick(index: nat)

  /** `handlePrevious`: back one page unless on the first. */
  function AfterPrevious(page: int): (r: int)
    ensures page > 1 ==> r == page - 1
    ensures page <= 1 ==> r == page
  {
    if page > 1 then page - 1 else page
  }

  /** `handleNext`: forward one page unless on the last. */
  function AfterNext(page: int, total: nat): (r: int)
    ensures page < total ==> r == page + 1
    ensures page >= total ==> r == page
  {
    if page < total then page + 1 else page
  }

  /** The page after a click; the buttons test the same bounds as the handlers. */
  function AfterClick(page: int, total: nat, c: Click): int
  {
    match c
    case PreviousClick => if page > 1 then AfterPrevious(page) else page
    case NextClick => if page < total then AfterNext(page, total) else page
    case ItemClick(index) => index + 1
  }

  /** The clicks the rendered pager can produce: items exist for pages 1 to total. */
  predicate ValidClicks(total: nat, cs: seq<Click>)
  {
    forall i :: 0 <= i < |cs| ==> cs[i].ItemClick? ==> cs[i].index < total
  }

  function RunClicks(page: int, total: nat, cs: seq<Click>): int
    decreases |cs|
  {
    if cs == [] then page else RunClicks(AfterClick(page, total, cs[0]), total, cs[1..])
  }

  /** Starting on a page in range, any clicks keep the page in 1 .. max(1, total). */
  lemma {:induction false} ClicksStayInRange(page: int, total: nat, cs: seq<Click>)
    requires 1 <= page <= Max(1, total)
    requires ValidClicks(total, cs)
    ensures 1 <= RunClicks(page, total, cs) <= Max(1, total)
    decreases |cs|
  {
    if cs != [] {
      assert ValidClicks(total, cs[1..]) by {
        forall i | 0 <= i < |cs| - 1 ensures cs[1..][i] == cs[i + 1] { }
      }
      ClicksStayInRange(AfterClick(page, total, cs[0]), total, cs[1..]);
    }
  }

  /** From any page in range, "Next" pressed k times moves k pages forward and stops at the last page. */
  lemma {:induction false} NextReachesLast(page: int, total: nat, k: nat)
    requires 1 <= page <= Max(1, total)
    ensures RunClicks(page, total, seq(k, _ => NextClick)) == Max(page, Min(page + k, total))
    decreases k
  {
    if k > 0 {
      var cs := seq(k, _ => NextClick);
      assert cs[1..] == seq(k - 1, _ => NextClick);
      NextReachesLast(AfterClick(page, total, NextClick), total, k - 1);
    }
  }

  /** The table's component instance: the games it was given and its current page. */
  class Pager {
    const games: seq<Game>
    var currentPage: int

    constructor (games0: seq<Game>)
      ensures games == games0 && currentPage == 1
    {
      games := games0;
      currentPage := 1;
    }

    method Previous()
      modifies this
      ensures currentPage == AfterPrevious(old(currentPage))
    {
      if currentPage > 1 {
        currentPage := currentPage - 1;
      }
    }

    method Next()
      modifies this
      ensures currentPage == AfterNext(old(currentPage), TotalPages(|games|))
    {
      var totalPages := TotalPages(|games|);
      if currentPage < totalPages {
        currentPage := currentPage + 1;
      }
    }

    /** `handlePageChange`: go to the given page, whatever it is. */
    method PageChange(page: int)
      modifies this
      ensures currentPage == page
    {
      currentPage := page;
    }

    /** One click on the rendered pager. */
    method Click(c: Click)
      modifies this
      ensures currentPage == AfterClick(old(currentPage), TotalPages(|games|), c)
    {
      match c {
        case PreviousClick =>
          if currentPage > 1 {
            Previous();
          }
        case NextClick =>
          if currentPage < TotalPages(|games|) {
            Next();
          }
        case ItemClick(index) =>
          PageChange(index + 1);
      }
    }
  }

  // ---------------------------------------------------------------------
  // extractMoves
  // ---------------------------------------------------------------------

  /** The characters a regular-expression `.` does not match. */
  predicate IsLineTerminator(c: char)
  {
    c == '\n' || c == '\r' || c == '\U{2028}' || c == '\U{2029}'
  }

  /** The characters of the class `\s` (and the ones `trim` removes). */
  predicate IsSpace(c: char)
  {
    c == '\t' || c == '\n' || c == '\U{000B}' || c == '\U{000C}' || c == '\r' || c == ' ' ||
    c == '\U{00A0}' || c == '\U{1680}' || ('\U{2000}' <= c <= '\U{200A}') ||
    c == '\U{2028}' || c == '\U{2029}' || c == '\U{202F}' || c == '\U{205F}' ||
    c == '\U{3000}' || c == '\U{FEFF}'
  }

  /** The offset of the first `close` in `t` with no line terminator before it. */
  function FirstClose(t: string, close: char): (r: Option<nat>)
    ensures r.Some? ==> r.value < |t| && t[r.value] == close
    ensures r.Some? ==> forall k :: 0 <= k < r.value ==> t[k] != close && !IsLineTerminator(t[k])
  {
    if t == [] then None
    else if t[0] == close then Some(0)
    else if IsLineTerminator(t[0]) then None
    else
      match FirstClose(t[1..], close)
      case None => None
      case Some(k) => Some(k + 1)
  }

  /** A span of text after an opening bracket that closes on the same line. */
  lemma {:induction false} FirstCloseOf(body: string, close: char, rest: string)
    requires forall k :: 0 <= k < |body| ==> body[k] != close && !IsLineTerminator(body[k])
    ensures FirstClose(body + [close] + rest, close) == Some(|body|)
  {
    if body != [] {
      assert (body + [close] + rest)[1..] == body[1..] + [close] + rest;
      FirstCloseOf(body[1..], close, rest);
    }
  }

  /** `s.replace(/\[.*?\]\n?/g, "")` for `open = '['`, `close = ']'` and
      `eatNewline` set, and `s.replace(/\{.*?\}/g, "")` for braces without it:
      scanning from the left, every opening bracket whose closing bracket
      comes before the end of its line is removed up to that closing
      bracket (and one newline right after it, if asked); other characters stay. */
  function StripSpans(s: string, open: char, close: char, eatNewline: bool): (r: string)
    requires open != close && !IsLineTerminator(open) && !IsLineTerminator(close)
    ensures NoSpan(r, open, close)
    ensures |r| <= |s|
    decreases |s|, 0
  {
    if s == [] then []
    else if s[0] != open then [s[0]] + StripSpans(s[1..], open, close, eatNewline)
    else
      match FirstClose(s[1..], close)
      case Some(k) =>
        var rest := s[k + 2..];
        var after := if eatNewline && rest != [] && rest[0] == '\n' then rest[1..] else rest;
        StripSpans(after, open, close, eatNewline)
      case None =>
        OpenLinePreserved(s[1..], open, close, eatNewline);
        [s[0]] + StripSpans(s[1..], open, close, eatNewline)
  }

  /** No opening bracket in `r` is closed on its own line. */
  predicate NoSpan(r: string, open: char, close: char)
  {
    r == [] || ((r[0] == open ==> FirstClose(r[1..], close).None?) && NoSpan(r[1..], open, close))
  }

  /** Stripping never closes a bracket that was open to the end of its line. */
  lemma {:induction false} OpenLinePreserved(t: string, open: char, close: char, eatNewline: bool)
    requires open != close && !IsLineTerminator(open) && !IsLineTerminator(close)
    requires FirstClose(t, close).None?
    ensures FirstClose(StripSpans(t, open, close, eatNewline), close).None?
    decreases |t|, 1
  {
    if t != [] && !IsLineTerminator(t[0]) {
      if t[0] == open {
        assert FirstClose(t[1..], close).None?;
      }
      OpenLinePreserved(t[1..], open, close, eatNewline);
      var r := StripSpans(t, open, close, eatNewline);
      assert r == [t[0]] + StripSpans(t[1..], open, close, eatNewline);
      assert r[1..] == StripSpans(t[1..], open, close, eatNewline);
    }
  }

  /** A bracketed span closed on its line is dropped, with the newline after
      it when asked, and stripping goes on after it. */
  lemma RemovesClosedSpan(body: string, rest: string, open: char, close: char, eatNewline: bool)
    requires open != close && !IsLineTerminator(open) && !IsLineTerminator(close)
    requires forall k :: 0 <= k < |body| ==> body[k] != close && !IsLineTerminator(body[k])
    ensures StripSpans([open] + body + [close] + rest, open, close, eatNewline)
            == StripSpans(if eatNewline && rest != [] && rest[0] == '\n' then rest[1..] else rest,
                          open, close, eatNewline)
  {
    var s := [open] + body + [close] + rest;
    assert s[1..] == body + [close] + rest;
    FirstCloseOf(body, close, rest);
    assert s[|body| + 2..] == rest;
  }

  /** An opening bracket with no closing one before the end of its line stays. */
  lemma KeepsUnclosedBracket(s: string, open: char, close: char, eatNewline: bool)
    requires open != close && !IsLineTerminator(open) && !IsLineTerminator(close)
    requires s != [] && s[0] == open && FirstClose(s[1..], close).None?
    ensures StripSpans(s, open, close, eatNewline) == [open] + StripSpans(s[1..], open, close, eatNewline)
  {
  }

  /** Text without opening brackets passes through unchanged. */
  lemma {:induction false} NoOpenUnchanged(s: string, open: char, close: char, eatNewline: bool)
    requires open != close && !IsLineTerminator(open) && !IsLineTerminator(close)
    requires open !in s
    ensures StripSpans(s, open, close, eatNewline) == s
    decreases |s|
  {
    if s != [] {
      NoOpenUnchanged(s[1..], open, close, eatNewline);
    }
  }

  /** An ordinary character is kept, whatever brackets follow it, and
      stripping goes on after it. */
  lemma KeepsOrdinary(s: string, open: char, close: char, eatNewline: bool)
    requires open != close && !IsLineTerminator(open) && !IsLineTerminator(close)
    requires s != [] && s[0] != open
    ensures StripSpans(s, open, close, eatNewline) == [s[0]] + StripSpans(s[1..], open, close, eatNewline)
  {
  }

  /** Leading whitespace removed. */
  function TrimStart(s: string): (r: string)
    ensures r == [] || !IsSpace(r[0])
    ensures |r| <= |s| && r == s[|s| - |r|..]
    ensures forall i :: 0 <= i < |s| - |r| ==> IsSpace(s[i])
  {
    if s != [] && IsSpace(s[0]) then TrimStart(s[1..]) else s
  }

  /** Trailing whitespace removed. */
  function TrimEnd(s: string): (r: string)
    ensures r == [] || !IsSpace(r[|r| - 1])
    ensures |r| <= |s| && r == s[..|r|]
    ensures forall i :: |r| <= i < |s| ==> IsSpace(s[i])
  {
    if s != [] && IsSpace(s[|s| - 1]) then TrimEnd(s[..|s| - 1]) else s
  }

  /** `String.prototype.trim`. */
  function Trim(s: string): (r: string)
    ensures r == [] || (!IsSpace(r[0]) && !IsSpace(r[|r| - 1]))
  {
    TrimEnd(TrimStart(s))
  }

  /** The characters of `s` that are not whitespace, in order. */
  function Visible(s: string): string
  {
    if s == [] then [] else (if IsSpace(s[0]) then [] else [s[0]]) + Visible(s[1..])
  }

  /** `s.replace(/\s+/g, " ")`: every run of whitespace becomes one space. */
  function Collapse(s: string): (r: string)
    ensures forall i :: 0 <= i < |r| ==> IsSpace(r[i]) ==> r[i] == ' '
    ensures forall i :: 0 <= i < |r| - 1 ==> !(r[i] == ' ' && r[i + 1] == ' ')
    ensures r == [] <==> s == []
    ensures s != [] ==> (IsSpace(s[0]) <==> IsSpace(r[0]))
    decreases |s|
  {
    if s == [] then []
    else if IsSpace(s[0]) then [' '] + Collapse(TrimStart(s[1..]))
    else [s[0]] + Collapse(s[1..])
  }

  /** A character that is not whitespace is kept and collapsing goes on after it. */
  lemma CollapseWord(c: char, t: string)
    requires !IsSpace(c)
    ensures Collapse([c] + t) == [c] + Collapse(t)
  {
    assert ([c] + t)[0] == c && ([c] + t)[1..] == t;
  }

  /** A whole run of whitespace before a word, or before the end, becomes one space. */
  lemma CollapseRun(w: string, t: string)
    requires w != [] && forall i :: 0 <= i < |w| ==> IsSpace(w[i])
    requires t == [] || !IsSpace(t[0])
    ensures Collapse(w + t) == [' '] + Collapse(t)
  {
    var c := w[0];
    assert IsSpace(c);
    ConsAppend(w, t);
    CollapseSpace(c, w[1..] + t);
    TrimStartRun(w[1..], t);
  }

  /** A leading whitespace character starts a run that becomes one space. */
  lemma CollapseSpace(c: char, rest: string)
    requires IsSpace(c)
    ensures Collapse([c] + rest) == [' '] + Collapse(TrimStart(rest))
  {
    assert ([c] + rest)[0] == c && ([c] + rest)[1..] == rest;
  }

  lemma ConsAppend(a: string, b: string)
    requires a != []
    ensures a + b == [a[0]] + (a[1..] + b)
  {
    assert a == [a[0]] + a[1..];
  }

  /** Trimming the start drops exactly a leading run of whitespace. */
  lemma {:induction false} TrimStartRun(w: string, t: string)
    requires forall i :: 0 <= i < |w| ==> IsSpace(w[i])
    requires t == [] || !IsSpace(t[0])
    ensures TrimStart(w + t) == t
  {
    if w == [] {
      assert w + t == t;
    } else {
      assert (w + t)[0] == w[0] && (w + t)[1..] == w[1..] + t;
      TrimStartRun(w[1..], t);
    }
  }

  /** A word without whitespace is kept as it is, and collapsing goes on after it. */
  lemma {:induction false} CollapseKeepsWord(u: string, t: string)
    requires forall i :: 0 <= i < |u| ==> !IsSpace(u[i])
    ensures Collapse(u + t) == u + Collapse(t)
  {
    if u == [] {
      assert u + t == t;
    } else {
      assert u + t == [u[0]] + (u[1..] + t);
      CollapseWord(u[0], u[1..] + t);
      CollapseKeepsWord(u[1..], t);
      assert u == [u[0]] + u[1..];
    }
  }

  /** Any whitespace run between two words becomes exactly one space. */
  lemma CollapseTwoWords(u: string, w: string, v: string)
    requires forall i :: 0 <= i < |u| ==> !IsSpace(u[i])
    requires w != [] && forall i :: 0 <= i < |w| ==> IsSpace(w[i])
    requires forall i :: 0 <= i < |v| ==> !IsSpace(v[i])
    ensures Collapse(u + w + v) == u + " " + v
  {
    GlueWords(u, w, v);
    CollapseKeepsWord(u, w + v);
    CollapseRun(w, v);
    CollapseKeepsWord(v, []);
  }

  lemma GlueWords(u: string, w: string, v: string)
    ensures u + w + v == u + (w + v)
    ensures v + [] == v
    ensures u + ([' '] + (v + [])) == u + " " + v
  {
  }

  /** Collapsing whitespace keeps every other character, in order. */
  lemma {:induction false} CollapseKeepsVisible(s: string)
    ensures Visible(Collapse(s)) == Visible(s)
    decreases |s|
  {
    if s != [] {
      var r := Collapse(s);
      if IsSpace(s[0]) {
        var rest := TrimStart(s[1..]);
        CollapseKeepsVisible(rest);
        VisibleSkipsSpaces(s[1..]);
        assert r[1..] == Collapse(rest);
      } else {
        CollapseKeepsVisible(s[1..]);
        assert r[1..] == Collapse(s[1..]);
      }
    }
  }

  lemma {:induction false} VisibleSkipsSpaces(s: string)
    ensures Visible(TrimStart(s)) == Visible(s)
  {
    if s != [] && IsSpace(s[0]) {
      VisibleSkipsSpaces(s[1..]);
    }
  }

  /** Trimming keeps every character that is not whitespace. */
  lemma TrimKeepsVisible(s: string)
    ensures Visible(Trim(s)) == Visible(s)
  {
    VisibleSkipsSpaces(s);
    VisibleSkipsTrailing(TrimStart(s));
  }

  /** Trimming the end keeps every character that is not whitespace. */
  lemma {:induction false} VisibleSkipsTrailing(s: string)
    ensures Visible(TrimEnd(s)) == Visible(s)
    decreases |s|
  {
    if s != [] && IsSpace(s[|s| - 1]) {
      var init := s[..|s| - 1];
      VisibleSkipsTrailing(init);
      assert s == init + [s[|s| - 1]];
      VisibleAppend(init, [s[|s| - 1]]);
      assert Visible([s[|s| - 1]]) == [] by {
        assert [s[|s| - 1]][1..] == [];
      }
    }
  }

  lemma {:induction false} VisibleAppend(a: string, b: string)
    ensures Visible(a + b) == Visible(a) + Visible(b)
  {
    if a == [] {
      assert a + b == b;
    } else {
      assert (a + b)[0] == a[0] && (a + b)[1..] == a[1..] + b;
      VisibleAppend(a[1..], b);
    }
  }

  /** `extractMoves`: tags and the newline after each removed, comments
      removed, whitespace runs collapsed, both ends trimmed. What remains
      visible is exactly the visible text outside tags and comments. */
  function ExtractMoves(pgn: string): (r: string)
    ensures r == [] || (r[0] != ' ' && r[|r| - 1] != ' ')
    ensures forall i :: 0 <= i < |r| ==> IsSpace(r[i]) ==> r[i] == ' '
    ensures forall i :: 0 <= i < |r| - 1 ==> !(r[i] == ' ' && r[i + 1] == ' ')
    ensures Visible(r) == Visible(StripSpans(StripSpans(pgn, '[', ']', true), '{', '}', false))
  {
    var withoutTags := StripSpans(pgn, '[', ']', true);
    var withoutComments := StripSpans(withoutTags, '{', '}', false);
    var collapsed := Collapse(withoutComments);
    TrimKeepsShape(collapsed);
    CollapseKeepsVisible(withoutComments);
    TrimKeepsVisible(collapsed);
    Trim(collapsed)
  }

  /** Whitespace only as single spaces. */
  predicate Collapsed(s: string)
  {
    (forall i :: 0 <= i < |s| ==> IsSpace(s[i]) ==> s[i] == ' ') &&
    (forall i :: 0 <= i < |s| - 1 ==> !(s[i] == ' ' && s[i + 1] == ' '))
  }

  /** A piece of a collapsed string is collapsed. */
  lemma SliceKeepsShape(c: string, lo: nat, hi: nat)
    requires lo <= hi <= |c| && Collapsed(c)
    ensures Collapsed(c[lo..hi])
  {
    var r := c[lo..hi];
    forall i | 0 <= i < |r| ensures IsSpace(r[i]) ==> r[i] == ' ' {
      assert r[i] == c[lo + i];
    }
    forall i | 0 <= i < |r| - 1 ensures !(r[i] == ' ' && r[i + 1] == ' ') {
      assert r[i] == c[lo + i] && r[i + 1] == c[lo + i + 1];
    }
  }

  /** Trimming a collapsed string keeps it collapsed: it is a substring of it. */
  lemma TrimKeepsShape(c: string)
    requires Collapsed(c)
    ensures Collapsed(Trim(c))
  {
    var a := TrimStart(c);
    SliceKeepsShape(c, |c| - |a|, |c|);
    var r := TrimEnd(a);
    SliceKeepsShape(a, 0, |r|);
  }
}
