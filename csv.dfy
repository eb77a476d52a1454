/**
 * `parseCsvRow` of netlify/functions/recommend.js. The source splits a row with the
 * global match `("[^"]*"|[^,])+` and then removes one leading and one trailing
 * double quote from each match. This is not RFC 4180: empty fields vanish (the
 * later columns shift left) and a quote cannot be escaped.
 */
module Csv {
  import opened Wrappers
  import opened Text

  /** The first '"' at or after `i`. */
  function NextQuote(s: string, i: nat): (r: Option<nat>)
    requires i <= |s|
    ensures r.Some? ==> i <= r.value < |s| && s[r.value] == '"'
    ensures r.None? ==> forall k :: i <= k < |s| ==> s[k] != '"'
    decreases |s| - i
  {
    if i == |s| then None else if s[i] == '"' then Some(i) else NextQuote(s, i + 1)
  }

  /**
   * Where the match starting at `i` ends. Each step takes a closed quoted span
   * `"..."` (which may hold commas) or, failing that, one character other than a
   * comma; an unclosed '"' is such an ordinary character.
   */
  function TokenEnd(s: string, i: nat): (e: nat)
    requires i <= |s|
    ensures i <= e <= |s|
    ensures e == |s| || s[e] == ','
    ensures i < |s| && s[i] != ',' ==> i < e
    decreases |s| - i
  {
    if i == |s| then i
    else if s[i] == '"' && NextQuote(s, i + 1).Some? then TokenEnd(s, NextQuote(s, i + 1).value + 1)
    else if s[i] != ',' then TokenEnd(s, i + 1)
    else i
  }

  /** All matches from offset `i` on; the commas between them are skipped. */
  function RawTokens(s: string, i: nat): (tokens: seq<string>)
    requires i <= |s|
    ensures forall k :: 0 <= k < |tokens| ==> tokens[k] != "" && tokens[k][0] != ','
    decreases |s| - i
  {
    if i == |s| then []
    else if s[i] == ',' then RawTokens(s, i + 1)
    else
      var e := TokenEnd(s, i);
      [s[i..e]] + RawTokens(s, e)
  }

  /** `col.replace(/^"|"$/g, '')`: at most one quote goes from each end. */
  function StripQuotes(t: string): (r: string)
    ensures |t| >= 2 && t[0] == '"' && t[|t| - 1] == '"' ==> r == t[1..|t| - 1]
    ensures (|t| == 0 || (t[0] != '"' && t[|t| - 1] != '"')) ==> r == t
    ensures |t| > 0 && t[0] == '"' && (|t| == 1 || t[|t| - 1] != '"') ==> r == t[1..]
    ensures |t| > 0 && t[|t| - 1] == '"' && (|t| == 1 || t[0] != '"') ==> r == t[..|t| - 1]
    ensures |t| - 2 <= |r| <= |t|
    ensures OccursAt(t, r, 0) || OccursAt(t, r, 1)
  {
    var a := if |t| > 0 && t[0] == '"' then t[1..] else t;
    var r := if |a| > 0 && a[|a| - 1] == '"' then a[..|a| - 1] else a;
    assert t[|t| - |a|..|t| - |a| + |r|] == r;
    r
  }

  /** `parseCsvRow(row)`. */
  function ParseCsvRow(row: string): (fields: seq<string>)
    ensures |fields| == |RawTokens(row, 0)|
    ensures forall k :: 0 <= k < |fields| ==> fields[k] == StripQuotes(RawTokens(row, 0)[k])
  {
    var tokens := RawTokens(row, 0);
    seq(|tokens|, k requires 0 <= k < |tokens| => StripQuotes(tokens[k]))
  }

  /** The parts that are not empty, in order. */
  function NonEmpty(parts: seq<string>): seq<string>
  {
    if |parts| == 0 then []
    else if parts[0] == "" then NonEmpty(parts[1..])
    else [parts[0]] + NonEmpty(parts[1..])
  }

  /** Without quotes, a match runs exactly up to the next comma. */
  lemma {:induction false} QuoteFreeTokenEnd(s: string, i: nat)
    requires '"' !in s && i <= |s|
    ensures forall k :: i <= k < TokenEnd(s, i) ==> s[k] != ','
    decreases |s| - i
  {
    if i < |s| && s[i] != ',' {
      QuoteFreeTokenEnd(s, i + 1);
    }
  }

  /** A one-character separator occurs exactly where that character stands. */
  lemma CommaAt(s: string, i: nat, k: int)
    requires i <= |s|
    ensures OccursAt(s[i..], ",", k) <==> 0 <= k && i + k < |s| && s[i + k] == ','
  {
    if 0 <= k && i + k < |s| {
      assert s[i..][k..k + 1] == [s[i + k]];
    }
  }

  /** In `s[i..]`, the first comma is at offset `e - i`. */
  lemma FindComma(s: string, i: nat, e: nat)
    requires i <= e < |s| && s[e] == ','
    requires forall k :: i <= k < e ==> s[k] != ','
    ensures Find(s[i..], ",") == Some(e - i)
  {
    CommaAt(s, i, e - i);
    var f := Find(s[i..], ",");
    if f.Some? {
      CommaAt(s, i, f.value);
    }
  }

  /** In `s[i..]` without a comma, there is nothing to split at. */
  lemma FindNoComma(s: string, i: nat)
    requires i <= |s|
    requires forall k :: i <= k < |s| ==> s[k] != ','
    ensures Find(s[i..], ",") == None
  {
    var f := Find(s[i..], ",");
    if f.Some? {
      CommaAt(s, i, f.value);
    }
  }

  /** Without quotes, the matches from `i` are the non-empty comma-separated parts of `s[i..]`. */
  lemma {:induction false} QuoteFreeTokens(s: string, i: nat)
    requires '"' !in s && i <= |s|
    ensures RawTokens(s, i) == NonEmpty(Split(s[i..], ","))
    decreases |s| - i
  {
    if i == |s| {
      NoTokensAtEnd(s);
    } else if s[i] == ',' {
      QuoteFreeTokens(s, i + 1);
      TokensAfterComma(s, i);
    } else if TokenEnd(s, i) == |s| {
      LastToken(s, i);
    } else {
      QuoteFreeTokens(s, TokenEnd(s, i) + 1);
      TokenThenRest(s, i);
    }
  }

  lemma NoTokensAtEnd(s: string)
    ensures RawTokens(s, |s|) == NonEmpty(Split(s[|s|..], ","))
  {
    FindNoComma(s, |s|);
    assert Split(s[|s|..], ",") == [""];
    assert NonEmpty([""]) == [];
  }

  lemma TokensAfterComma(s: string, i: nat)
    requires i < |s| && s[i] == ','
    requires RawTokens(s, i + 1) == NonEmpty(Split(s[i + 1..], ","))
    ensures RawTokens(s, i) == NonEmpty(Split(s[i..], ","))
  {
    SplitAtLeadingComma(s, i);
    assert RawTokens(s, i) == RawTokens(s, i + 1);
  }

  lemma LastToken(s: string, i: nat)
    requires '"' !in s && i < |s| && s[i] != ',' && TokenEnd(s, i) == |s|
    ensures RawTokens(s, i) == NonEmpty(Split(s[i..], ","))
  {
    QuoteFreeTokenEnd(s, i);
    FindNoComma(s, i);
    var t := s[i..];
    assert s[i..TokenEnd(s, i)] == t;
    assert RawTokens(s, i) == [t] + RawTokens(s, |s|);
    assert Split(t, ",") == [t];
    assert t != "" && NonEmpty([t]) == [t] + NonEmpty([]);
  }

  lemma TokenThenRest(s: string, i: nat)
    requires '"' !in s && i < |s| && s[i] != ',' && TokenEnd(s, i) < |s|
    requires RawTokens(s, TokenEnd(s, i) + 1) == NonEmpty(Split(s[TokenEnd(s, i) + 1..], ","))
    ensures RawTokens(s, i) == NonEmpty(Split(s[i..], ","))
  {
    var e := TokenEnd(s, i);
    SplitAtTokenEnd(s, i);
    assert RawTokens(s, e) == RawTokens(s, e + 1);
    assert RawTokens(s, i) == [s[i..e]] + RawTokens(s, e + 1);
  }

  lemma SplitAtLeadingComma(s: string, i: nat)
    requires i < |s| && s[i] == ','
    ensures NonEmpty(Split(s[i..], ",")) == NonEmpty(Split(s[i + 1..], ","))
  {
    FindComma(s, i, i);
    assert s[i..][1..] == s[i + 1..];
    assert Split(s[i..], ",") == [""] + Split(s[i + 1..], ",");
  }

  lemma SplitAtTokenEnd(s: string, i: nat)
    requires '"' !in s && i < |s| && s[i] != ',' && TokenEnd(s, i) < |s|
    ensures var e := TokenEnd(s, i);
            NonEmpty(Split(s[i..], ",")) == [s[i..e]] + NonEmpty(Split(s[e + 1..], ","))
  {
    var e := TokenEnd(s, i);
    QuoteFreeTokenEnd(s, i);
    FindComma(s, i, e);
    var t := s[i..];
    assert t[..e - i] == s[i..e];
    assert t[e - i + 1..] == s[e + 1..];
    var rest := Split(s[e + 1..], ",");
    var parts := [s[i..e]] + rest;
    assert Split(t, ",") == [t[..e - i]] + Split(t[e - i + 1..], ",");
    assert parts[0] != "" && parts[1..] == rest;
  }

  /** A row without quotes splits at every comma, and the empty fields are dropped. */
  lemma QuoteFreeRowIsSplit(row: string)
    requires '"' !in row
    ensures RawTokens(row, 0) == NonEmpty(Split(row, ","))
    ensures ParseCsvRow(row) == RawTokens(row, 0)
  {
    QuoteFreeTokens(row, 0);
    assert row[0..] == row;
    var tokens := RawTokens(row, 0);
    forall k | 0 <= k < |tokens| ensures StripQuotes(tokens[k]) == tokens[k] {
      assert tokens[k] in NonEmpty(Split(row, ","));
      NoQuoteInTokens(row, 0, k);
    }
  }

  /** Every match is a piece of the row. */
  lemma {:induction false} NoQuoteInTokens(s: string, i: nat, k: nat)
    requires '"' !in s && i <= |s| && k < |RawTokens(s, i)|
    ensures '"' !in RawTokens(s, i)[k]
    decreases |s| - i
  {
    if s[i] == ',' {
      NoQuoteInTokens(s, i + 1, k);
    } else if k > 0 {
      NoQuoteInTokens(s, TokenEnd(s, i), k - 1);
    } else {
      var e := TokenEnd(s, i);
      forall c | c in s[i..e] ensures c != '"' {
        var m :| 0 <= m < e - i && s[i..e][m] == c;
        assert s[i + m] == c;
      }
    }
  }

  /** A closed quoted span is one field, whatever commas it holds, and loses its quotes. */
  lemma QuotedSpanIsOneField(x: string)
    requires '"' !in x
    ensures ParseCsvRow("\"" + x + "\"") == [x]
  {
    var s := "\"" + x + "\"";
    var q := NextQuote(s, 1);
    assert s[|s| - 1] == '"';
    assert forall k :: 1 <= k < |s| - 1 ==> s[k] == x[k - 1];
    assert q == Some(|s| - 1);
    assert TokenEnd(s, 0) == TokenEnd(s, |s|) == |s|;
    assert RawTokens(s, 0) == [s[0..|s|]] + RawTokens(s, |s|);
    assert s[0..|s|] == s;
    assert s[1..|s| - 1] == x;
  }
}
