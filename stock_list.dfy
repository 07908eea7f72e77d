/** The ticker list behind the `/stocks` route (web/backend/app.py,
    `manage_stocks`): GET lists the file's lines without the header line,
    POST appends a symbol that is not yet listed, DELETE removes the first
    line equal to a symbol. The file is modelled by its text, `None` when it
    does not exist; the HTTP layer is reduced to a status and a body. */
module StockList {
  import opened Basics

  // ---------------------------------------------------------------------
  // Text helpers with Python's str semantics
  // ---------------------------------------------------------------------

  /** `str.isspace` for one character: the whitespace `strip()` removes. */
  predicate IsSpace(c: char)
  {
    var n := c as int;
    || 9 <= n <= 13 || 28 <= n <= 32 || n == 0x85 || n == 0xA0 || n == 0x1680
    || 0x2000 <= n <= 0x200A || n == 0x2028 || n == 0x2029 || n == 0x202F
    || n == 0x205F || n == 0x3000
  }

  /** Where `lstrip()` cuts, looking from `i` on: the first non-space at or
      after `i`, or |s| when there is none. */
  function SkipSpace(s: string, i: nat): (k: nat)
    requires i <= |s|
    ensures i <= k <= |s|
    ensures forall j :: i <= j < k ==> IsSpace(s[j])
    ensures k == |s| || !IsSpace(s[k])
    decreases |s| - i
  {
    if i == |s| || !IsSpace(s[i]) then i else SkipSpace(s, i + 1)
  }

  /** Where `rstrip()` cuts, looking back from `j` and not below `lo`: just
      after the last non-space in s[lo..j], or `lo` when there is none. */
  function SkipSpaceBack(s: string, lo: nat, j: nat): (k: nat)
    requires lo <= j <= |s|
    ensures lo <= k <= j
    ensures forall i :: k <= i < j ==> IsSpace(s[i])
    ensures k == lo || !IsSpace(s[k - 1])
  {
    if j == lo || !IsSpace(s[j - 1]) then j else SkipSpaceBack(s, lo, j - 1)
  }

  /** No space at either end. */
  predicate Stripped(s: string)
  {
    s == [] || (!IsSpace(s[0]) && !IsSpace(s[|s| - 1]))
  }

  /** `strip()`: the text between the leading and the trailing whitespace. */
  function Strip(s: string): (r: string)
    ensures |r| <= |s|
    ensures Stripped(r)
  {
    var a := SkipSpace(s, 0);
    s[a..SkipSpaceBack(s, a, |s|)]
  }

  /** Strip removes exactly the leading and the trailing whitespace: the
      result is a slice of `s` with only spaces before and after it, and (by
      `Stripped`) it starts and ends with a non-space. */
  lemma StripRemovesEdgeSpace(s: string)
    ensures exists a, b ::
              && 0 <= a <= b <= |s| && Strip(s) == s[a..b]
              && (forall i :: 0 <= i < a ==> IsSpace(s[i]))
              && (forall i :: b <= i < |s| ==> IsSpace(s[i]))
  {
    var a := SkipSpace(s, 0);
    var b := SkipSpaceBack(s, a, |s|);
    assert Strip(s) == s[a..b];
  }

  /** Stripping only removes characters from the ends. */
  lemma StripKeepsInnerText(s: string, c: char)
    ensures c in Strip(s) ==> c in s
  {
    var a := SkipSpace(s, 0);
    var b := SkipSpaceBack(s, a, |s|);
    if c in Strip(s) {
      var i :| 0 <= i < b - a && s[a..b][i] == c;
      assert s[a + i] == c;
    }
  }

  /** A string with no space at either end is its own strip. */
  lemma StripOfStripped(s: string)
    requires Stripped(s)
    ensures Strip(s) == s
  {
    if s != [] {
      assert SkipSpace(s, 0) == 0;
      assert SkipSpaceBack(s, 0, |s|) == |s|;
    }
  }

  /** Stripping twice is stripping once. */
  lemma StripIdempotent(s: string)
    ensures Strip(Strip(s)) == Strip(s)
  {
    StripOfStripped(Strip(s));
  }

  /** ASCII lower-casing. Python's `lower()` also maps other letters, but
      no other character lowers to one of the letters of "symbol", so the
      header test below agrees with Python's. */
  function LowerChar(c: char): char
  {
    if 'A' <= c <= 'Z' then (c as int + 32) as char else c
  }

  function Lower(s: string): (r: string)
    ensures |r| == |s|
  {
    seq(|s|, i requires 0 <= i < |s| => LowerChar(s[i]))
  }

  /** The CSV header line, in any case and with any surrounding spaces. */
  predicate IsHeader(line: string)
  {
    Lower(Strip(line)) == "symbol"
  }

  /** `t.split('\n')`: the pieces between newlines; never empty. */
  function Pieces(t: string): (ps: seq<string>)
    ensures |ps| >= 1
    ensures forall i :: 0 <= i < |ps| ==> '\n' !in ps[i]
    decreases |t|
  {
    var k := IndexOf(t, '\n');
    if k == |t| then [t] else [t[..k]] + Pieces(t[k + 1..])
  }

  /** `splitlines()` with '\n' as the only line break: no lines in the empty
      text, and a final newline does not start another line. */
  function SplitLines(t: string): (ls: seq<string>)
    ensures forall i :: 0 <= i < |ls| ==> '\n' !in ls[i]
  {
    if t == [] then []
    else
      var ps := Pieces(t);
      if ps[|ps| - 1] == [] then ps[..|ps| - 1] else ps
  }

  /** `'\n'.join(ls)`. */
  function Join(ls: seq<string>): string
  {
    if ls == [] then [] else if |ls| == 1 then ls[0] else ls[0] + "\n" + Join(ls[1..])
  }

  /** Splitting undoes joining when no element holds a newline. */
  lemma {:induction false} PiecesOfJoin(ls: seq<string>)
    requires |ls| >= 1
    requires forall i :: 0 <= i < |ls| ==> '\n' !in ls[i]
    ensures Pieces(Join(ls)) == ls
  {
    if |ls| > 1 {
      var t := Join(ls);
      var k := IndexOf(t, '\n');
      assert t == ls[0] + "\n" + Join(ls[1..]);
      assert t[|ls[0]|] == '\n';
      assert forall i :: 0 <= i < |ls[0]| ==> t[i] == ls[0][i];
      assert k == |ls[0]|;
      assert t[..k] == ls[0];
      assert t[k + 1..] == Join(ls[1..]);
      PiecesOfJoin(ls[1..]);
    }
  }

  /** A trailing newline adds one empty piece. */
  lemma {:induction false} PiecesWithNewline(t: string)
    ensures Pieces(t + "\n") == Pieces(t) + [[]]
    decreases |t|
  {
    var u := t + "\n";
    var k := IndexOf(t, '\n');
    var j := IndexOf(u, '\n');
    if k == |t| {
      assert forall i :: 0 <= i < |t| ==> u[i] == t[i];
      assert u[|t|] == '\n';
      assert j == |t|;
      assert u[..j] == t;
      assert u[j + 1..] == [];
      assert IndexOf([], '\n') == 0;
    } else {
      assert u[k] == t[k];
      assert forall i :: 0 <= i < |t| ==> u[i] == t[i];
      assert j == k;
      assert u[..j] == t[..k];
      SliceOfAppend(t, "\n", k + 1);
      PiecesWithNewline(t[k + 1..]);
    }
  }

  lemma SliceOfAppend<T>(a: seq<T>, b: seq<T>, k: nat)
    requires k <= |a|
    ensures (a + b)[k..] == a[k..] + b
  {
  }

  /** Reading back what POST writes: joined lines with a final newline
      split into exactly those lines. */
  lemma JoinWithNewlineReadsBack(ls: seq<string>)
    requires |ls| >= 1
    requires forall i :: 0 <= i < |ls| ==> '\n' !in ls[i]
    ensures SplitLines(Join(ls) + "\n") == ls
  {
    PiecesWithNewline(Join(ls));
    PiecesOfJoin(ls);
    assert (Pieces(Join(ls)) + [[]])[..|ls|] == ls;
  }

  /** Reading back what DELETE writes: joined lines without a final newline
      split into those lines unless the last one is empty. */
  lemma JoinReadsBack(ls: seq<string>)
    requires forall i :: 0 <= i < |ls| ==> '\n' !in ls[i]
    requires ls == [] || ls[|ls| - 1] != []
    ensures SplitLines(Join(ls)) == ls
  {
    if ls != [] {
      PiecesOfJoin(ls);
    }
  }

  // ---------------------------------------------------------------------
  // The list transformations
  // ---------------------------------------------------------------------

  /** Every line stripped. */
  function StripAll(ls: seq<string>): (r: seq<string>)
    ensures |r| == |ls|
    ensures forall i :: 0 <= i < |ls| ==> r[i] == Strip(ls[i])
  {
    seq(|ls|, i requires 0 <= i < |ls| => Strip(ls[i]))
  }

  predicate NonBlank(s: string)
  {
    s != []
  }

  /** The stripped, non-blank lines (POST's reading of the file): the strip
      of every line, blanks dropped, in file order. */
  function CleanLines(ls: seq<string>): (r: seq<string>)
    ensures |r| <= |ls|
    ensures forall i :: 0 <= i < |r| ==> r[i] != [] && Stripped(r[i])
  {
    if ls == [] then []
    else
      var s := Strip(ls[0]);
      (if s != [] then [s] else []) + CleanLines(ls[1..])
  }

  /** Cleaning is the strip of every line with the blank results dropped,
      in file order. */
  lemma {:induction false} CleanLinesKeepsNonBlankStrips(ls: seq<string>)
    ensures CleanLines(ls) == Filter(StripAll(ls), NonBlank)
  {
    if ls != [] {
      assert StripAll(ls)[1..] == StripAll(ls[1..]);
      CleanLinesKeepsNonBlankStrips(ls[1..]);
    }
  }

  /** Cleaning lines without newlines gives lines without newlines. */
  lemma CleanLinesNoNewline(ls: seq<string>)
    requires forall i :: 0 <= i < |ls| ==> '\n' !in ls[i]
    ensures forall i :: 0 <= i < |CleanLines(ls)| ==> '\n' !in CleanLines(ls)[i]
  {
    CleanLinesKeepsNonBlankStrips(ls);
    forall i | 0 <= i < |CleanLines(ls)|
      ensures '\n' !in CleanLines(ls)[i]
    {
      var x := CleanLines(ls)[i];
      assert x in StripAll(ls);
      var j :| 0 <= j < |ls| && StripAll(ls)[j] == x;
      StripKeepsInnerText(ls[j], '\n');
    }
  }

  /** Lines that are already stripped and non-blank are left as they are. */
  lemma {:induction false} CleanLinesOfClean(ls: seq<string>)
    requires forall i :: 0 <= i < |ls| ==> ls[i] != [] && Stripped(ls[i])
    ensures CleanLines(ls) == ls
  {
    if ls != [] {
      StripOfStripped(ls[0]);
      CleanLinesOfClean(ls[1..]);
    }
  }

  /** `list.remove(x)`: drop the first element equal to x. */
  function RemoveFirst<T(==)>(ls: seq<T>, x: T): (r: seq<T>)
    requires x in ls
    ensures |r| == |ls| - 1
  {
    if ls[0] == x then ls[1..] else [ls[0]] + RemoveFirst(ls[1..], x)
  }

  /** Only the first occurrence goes; everything before and after it stays
      in order. */
  lemma {:induction false} RemoveFirstIsSlice<T>(ls: seq<T>, x: T)
    requires x in ls
    ensures var k := IndexOf(ls, x);
      k < |ls| && RemoveFirst(ls, x) == ls[..k] + ls[k + 1..]
  {
    if ls[0] != x {
      var t := ls[1..];
      RemoveFirstIsSlice(t, x);
      var k := IndexOf(t, x);
      assert IndexOf(ls, x) == k + 1;
      assert RemoveFirst(ls, x) == [ls[0]] + (t[..k] + t[k + 1..]);
      assert ls[..k + 1] == [ls[0]] + t[..k];
      assert ls[k + 2..] == t[k + 1..];
    }
  }

  /** One copy of x fewer, and nothing else changes. */
  lemma {:induction false} RemoveFirstCount<T>(ls: seq<T>, x: T)
    requires x in ls
    ensures multiset(RemoveFirst(ls, x)) == multiset(ls) - multiset{x}
  {
    assert ls == [ls[0]] + ls[1..];
    if ls[0] != x {
      RemoveFirstCount(ls[1..], x);
    }
  }

  // ---------------------------------------------------------------------
  // The route
  // ---------------------------------------------------------------------

  datatype Body =
    | Symbols(symbols: seq<string>)
    | Message(text: string)
    | Error(text: string)
    | ServerError   // the text of an unexpected exception

  datatype Response = Response(status: int, body: Body)

  /** GET's listing of a file's text. */
  function Listing(t: string): (ls: seq<string>)
    ensures forall x :: x in ls ==> x in SplitLines(t) && !IsHeader(x)
  {
    Filter(SplitLines(t), line => !IsHeader(line))
  }

  /** Exactly the header lines are dropped: every other line is listed as
      often as it occurs. */
  lemma ListingDropsExactlyHeaders(t: string, x: string)
    ensures multiset(Listing(t))[x] == if IsHeader(x) then 0 else multiset(SplitLines(t))[x]
  {
    FilterCount(SplitLines(t), line => !IsHeader(line), x);
  }

  /** The ticker file, `None` while it does not exist. */
  class TickerFile {
    var text: Option<string>

    constructor (text: Option<string>)
      ensures this.text == text
    {
      this.text := text;
    }

    method Get() returns (resp: Response)
      ensures text.None? ==> resp == Response(404, Error("tickers.csv not found"))
      ensures text.Some? ==> resp == Response(200, Symbols(Listing(text.value)))
    {
      if text.None? {
        return Response(404, Error("tickers.csv not found"));
      }
      var stocks := SplitLines(text.value);
      stocks := Filter(stocks, line => !IsHeader(line));
      resp := Response(200, Symbols(stocks));
    }

    method Post(symbol: Option<string>) returns (resp: Response)
      modifies this
      ensures symbol.None? || symbol.value == [] ==>
        resp == Response(400, Error("No symbol provided")) && text == old(text)
      ensures symbol.Some? && symbol.value != [] && old(text).None? ==>
        resp == Response(500, ServerError) && text == old(text)
      ensures symbol.Some? && symbol.value != [] && old(text).Some? ==>
        var s := symbol.value;
        var lines := CleanLines(SplitLines(old(text).value));
        if s in lines then
          resp == Response(400, Error("Stock " + s + " already exists.")) && text == old(text)
        else
          resp == Response(200, Message("Stock " + s + " added.")) && text == Some(Join(lines + [s]) + "\n")
    {
      if symbol.None? || symbol.value == [] {
        return Response(400, Error("No symbol provided"));
      }
      var s := symbol.value;
      if text.None? {
        return Response(500, ServerError);
      }
      var lines := CleanLines(SplitLines(text.value));
      if s in lines {
        return Response(400, Error("Stock " + s + " already exists."));
      }
      lines := lines + [s];
      text := Some(Join(lines) + "\n");
      resp := Response(200, Message("Stock " + s + " added."));
    }

    method Delete(symbol: Option<string>) returns (resp: Response)
      modifies this
      ensures symbol.None? || symbol.value == [] ==>
        resp == Response(400, Error("No symbol provided")) && text == old(text)
      ensures symbol.Some? && symbol.value != [] && old(text).None? ==>
        resp == Response(500, ServerError) && text == old(text)
      ensures symbol.Some? && symbol.value != [] && old(text).Some? ==>
        var s := symbol.value;
        var stocks := SplitLines(old(text).value);
        if s !in stocks then
          resp == Response(404, Error("Stock " + s + " not found")) && text == old(text)
        else
          resp == Response(200, Message("Stock " + s + " removed.")) && text == Some(Join(RemoveFirst(stocks, s)))
    {
      if symbol.None? || symbol.value == [] {
        return Response(400, Error("No symbol provided"));
      }
      var s := symbol.value;
      if text.None? {
        return Response(500, ServerError);
      }
      var stocks := SplitLines(text.value);
      if s !in stocks {
        return Response(404, Error("Stock " + s + " not found"));
      }
      stocks := RemoveFirst(stocks, s);
      text := Some(Join(stocks));
      resp := Response(200, Message("Stock " + s + " removed."));
    }
  }

  /** After a successful POST the file reads back as the cleaned lines with
      the new symbol last, provided the symbol holds no newline. */
  lemma PostReadsBack(t: string, s: string)
    requires s != [] && '\n' !in s
    ensures SplitLines(Join(CleanLines(SplitLines(t)) + [s]) + "\n") == CleanLines(SplitLines(t)) + [s]
  {
    var lines := CleanLines(SplitLines(t)) + [s];
    CleanLinesNoNewline(SplitLines(t));
    JoinWithNewlineReadsBack(lines);
  }

  /** Posting the same stripped symbol a second time is refused: it is then
      among the cleaned lines. */
  lemma PostTwiceRefused(t: string, s: string)
    requires s != [] && '\n' !in s && Stripped(s)
    ensures var t' := Join(CleanLines(SplitLines(t)) + [s]) + "\n";
      s in CleanLines(SplitLines(t'))
  {
    var lines := CleanLines(SplitLines(t)) + [s];
    PostReadsBack(t, s);
    CleanLinesOfClean(lines);
    assert lines[|lines| - 1] == s;
  }

  /** After a successful DELETE the file reads back as the old lines
      without the first copy of the symbol, unless the remaining last line
      is empty (the write has no final newline to keep it). */
  lemma DeleteReadsBack(t: string, s: string)
    requires s in SplitLines(t)
    requires var r := RemoveFirst(SplitLines(t), s); r == [] || r[|r| - 1] != []
    ensures SplitLines(Join(RemoveFirst(SplitLines(t), s))) == RemoveFirst(SplitLines(t), s)
  {
    var ls := SplitLines(t);
    RemoveFirstCount(ls, s);
    var r := RemoveFirst(ls, s);
    forall i | 0 <= i < |r|
      ensures '\n' !in r[i]
    {
      assert r[i] in multiset(r);
    }
    JoinReadsBack(r);
  }
}
