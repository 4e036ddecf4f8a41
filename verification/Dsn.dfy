/**
 db/postgres.go: keyword DSNs, printed and split by this package and read by PostgreSQL.

 `Parse` is the keyword/value grammar of section 34.1.1.1 of the PostgreSQL 16 documentation.
 */
module Dsn {
  import opened Options
  import opened Sequences
  import opened Text

  // ---------------------------------------------------------------------------------------------
  // The grammar
  // ---------------------------------------------------------------------------------------------

  predicate IsBlank(c: char) {
    c == ' ' || '\t' <= c <= '\r'
  }

  predicate NoBlank(s: string) {
    forall c :: c in s ==> !IsBlank(c)
  }

  function SkipBlanks(s: string): (r: string)
    ensures |r| <= |s|
  {
    if s != "" && IsBlank(s[0]) then SkipBlanks(s[1..]) else s
  }

  /** Where a parameter name ends. */
  function NameEnd(s: string): (n: nat)
    ensures n <= |s|
  {
    if s == "" || s[0] == '=' || IsBlank(s[0]) then 0 else 1 + NameEnd(s[1..])
  }

  datatype Piece = Piece(value: string, rest: string)

  function Unquoted(s: string): (p: Piece)
    ensures |p.rest| <= |s|
    decreases |s|
  {
    if s == "" then Piece("", "")
    else if IsBlank(s[0]) then Piece("", s[1..])
    else if s == "\\" then Piece("", "")
    else
      var n := if s[0] == '\\' then 1 else 0;
      var p := Unquoted(s[n + 1..]);
      Piece([s[n]] + p.value, p.rest)
  }

  /** After the opening quote; none if the closing one is missing. */
  function Quoted(s: string): (p: Option<Piece>)
    ensures p.Some? ==> |p.value.rest| < |s|
    decreases |s|
  {
    if s == "" || s == "\\" then None
    else if s[0] == '\'' then Some(Piece("", s[1..]))
    else
      var n := if s[0] == '\\' then 1 else 0;
      match Quoted(s[n + 1..])
      case None => None
      case Some(p) => Some(Piece([s[n]] + p.value, p.rest))
  }

  function ReadValue(s: string): (p: Option<Piece>)
    ensures p.Some? ==> |p.value.rest| <= |s|
  {
    if s != "" && s[0] == '\'' then Quoted(s[1..]) else Some(Unquoted(s))
  }

  function ParseInto(settings: map<string, string>, s: string): Option<map<string, string>>
    decreases |s|
  {
    if s == "" then Some(settings)
    else if IsBlank(s[0]) then ParseInto(settings, s[1..])
    else
      var n := NameEnd(s);
      var eq := SkipBlanks(s[n..]);
      if eq == "" || eq[0] != '=' then None
      else
        match ReadValue(SkipBlanks(eq[1..]))
        case None => None
        case Some(p) => ParseInto(settings[s[..n] := p.value], p.rest)
  }

  /** What PostgreSQL reads, a later setting of the same name winning. */
  function Parse(s: string): Option<map<string, string>> {
    ParseInto(map[], s)
  }

  // ---------------------------------------------------------------------------------------------
  // The printer
  // ---------------------------------------------------------------------------------------------

  /** strings.ReplaceAll of a single character. */
  function Replace(s: string, c: char, with: string): string {
    if s == "" then "" else (if s[0] == c then with else [s[0]]) + Replace(s[1..], c, with)
  }

  lemma {:induction false} ReplaceGrows(s: string, c: char, with: string)
    requires with != ""
    ensures |s| <= |Replace(s, c, with)|
  {
    if s != "" {
      ReplaceGrows(s[1..], c, with);
    }
  }

  predicate NeedsQuotes(v: string) {
    v == "" || exists c :: c in v && c in " \t'\\"
  }

  function QuoteKeywordValue(v: string): string {
    if NeedsQuotes(v) then "'" + Replace(Replace(v, '\\', "\\\\"), '\'', "\\'") + "'" else v
  }

  /** A value is printed as it is exactly if it holds a character and none of the four that ask for
      quotes; any other is put between quotes. */
  lemma QuotedExactly(v: string)
    ensures QuoteKeywordValue(v) == v
       <==> v != "" && ' ' !in v && '\t' !in v && '\'' !in v && '\\' !in v
    ensures QuoteKeywordValue(v) != v ==> exists inner :: QuoteKeywordValue(v) == "'" + inner + "'"
  {
    ReplaceGrows(v, '\\', "\\\\");
    ReplaceGrows(Replace(v, '\\', "\\\\"), '\'', "\\'");
    if NeedsQuotes(v) && v != "" {
      var c :| c in v && c in " \t'\\";
      assert c == ' ' || c == '\t' || c == '\'' || c == '\\';
    }
  }

  function Pair(k: string, v: string): string {
    k + "=" + QuoteKeywordValue(v)
  }

  /** strings.Join with one space. */
  function JoinSpaces(words: seq<string>): string {
    if words == [] then ""
    else if |words| == 1 then words[0]
    else words[0] + " " + JoinSpaces(words[1..])
  }

  function Pairs(ks: seq<string>, parts: map<string, string>): seq<string>
    requires forall k :: k in ks ==> k in parts
  {
    seq(|ks|, i requires 0 <= i < |ks| => Pair(ks[i], parts[ks[i]]))
  }

  /** The settings in a given order of their names. */
  function Print(ks: seq<string>, parts: map<string, string>): string
    requires forall k :: k in ks ==> k in parts
  {
    JoinSpaces(Pairs(ks, parts))
  }

  predicate NoDuplicates(ks: seq<string>) {
    forall i, j :: 0 <= i < j < |ks| ==> ks[i] != ks[j]
  }

  /** An order of all the names. */
  ghost predicate Lists(ks: seq<string>, parts: map<string, string>) {
    NoDuplicates(ks) && forall k :: k in ks <==> k in parts
  }

  const ORDER: seq<string> :=
    ["host", "port", "user", "password", "dbname", "sslmode", "connect_timeout", "timezone", "TimeZone"]

  function Present(ks: seq<string>, parts: map<string, string>): (r: seq<string>)
    ensures forall k :: k in r <==> k in ks && k in parts
  {
    if ks == [] then []
    else
      var n := |ks| - 1;
      Present(ks[..n], parts) + if ks[n] in parts then [ks[n]] else []
  }

  lemma OrderNoDuplicates()
    ensures NoDuplicates(ORDER)
  {
    assert |"host"| == |"port"| == |"user"| == 4 && |"password"| == |"timezone"| == |"TimeZone"| == 8;
    assert "host"[0] == 'h' && "port"[0] == 'p' && "user"[0] == 'u';
    assert "password"[0] == 'p' && "timezone"[0] == 't' && "TimeZone"[0] == 'T';
    assert |"dbname"| == 6 && |"sslmode"| == 7 && |"connect_timeout"| == 15;
  }

  /** The names present come in the order of the list. */
  lemma {:induction false} PresentInOrder(ks: seq<string>, parts: map<string, string>, i: nat, j: nat)
    returns (p: nat, q: nat)
    requires i < j < |Present(ks, parts)|
    ensures p < q < |ks| && ks[p] == Present(ks, parts)[i] && ks[q] == Present(ks, parts)[j]
  {
    var n := |ks| - 1;
    if j < |Present(ks[..n], parts)| {
      p, q := PresentInOrder(ks[..n], parts, i, j);
    } else {
      assert Present(ks[..n], parts)[i] in Present(ks[..n], parts);
      p :| 0 <= p < n && ks[p] == Present(ks, parts)[i];
      q := n;
    }
  }

  lemma PresentNext(order: seq<string>, i: nat, parts: map<string, string>)
    requires i < |order| && NoDuplicates(order)
    ensures Present(order[..i + 1], parts) == Present(order[..i], parts) + if order[i] in parts then [order[i]] else []
    ensures order[i] !in Present(order[..i], parts)
  {
    assert order[..i + 1][..i] == order[..i];
  }

  lemma PairsNext(ks: seq<string>, k: string, parts: map<string, string>)
    requires k in parts && forall j :: j in ks ==> j in parts
    ensures Pairs(ks + [k], parts) == Pairs(ks, parts) + [Pair(k, parts[k])]
  {
  }

  /** The first loop of joinKeywordDSN: the well-known names, in their order. */
  method JoinKnown(order: seq<string>, parts: map<string, string>)
    returns (out: seq<string>, seen: set<string>, ghost ks: seq<string>)
    requires NoDuplicates(order)
    ensures ks == Present(order, parts) && NoDuplicates(ks) && seen == (set k | k in ks)
    ensures out == Pairs(ks, parts)
  {
    out, seen, ks := [], {}, [];
    for i := 0 to |order|
      invariant ks == Present(order[..i], parts) && NoDuplicates(ks) && seen == set k | k in ks
      invariant out == Pairs(ks, parts)
    {
      PresentNext(order, i, parts);
      var k := order[i];
      if k !in parts {
        continue;
      }
      PairsNext(ks, k, parts);
      out := out + [Pair(k, parts[k])];
      seen := seen + {k};
      ks := ks + [k];
    }
    assert order[..|order|] == order;
  }

  // ---------------------------------------------------------------------------------------------
  // PostgreSQL reads what is printed
  // ---------------------------------------------------------------------------------------------

  /** A value that is quoted, or needs no quotes to be read whole. */
  predicate Printable(v: string) {
    NeedsQuotes(v) || NoBlank(v)
  }

  predicate GoodName(k: string) {
    k != "" && '=' !in k && forall c :: c in k ==> !IsSpace(c)
  }

  function Escaped(v: string): string {
    Replace(Replace(v, '\\', "\\\\"), '\'', "\\'")
  }

  lemma EscapedStep(v: string)
    requires v != ""
    ensures Escaped(v) == EscapedChar(v[0]) + Escaped(v[1..])
  {
    var tail := Replace(v[1..], '\\', "\\\\");
    var w := (if v[0] == '\\' then ['\\', '\\'] else [v[0]]) + tail;
    assert Replace(v, '\\', "\\\\") == w;
    if v[0] == '\\' {
      var x := w[1..];
      assert w[0] == '\\' && x == ['\\'] + tail && x[1..] == tail;
      assert Replace(x, '\'', "\\'") == ['\\'] + Escaped(v[1..]);
      assert Replace(w, '\'', "\\'") == ['\\'] + Replace(x, '\'', "\\'");
    } else {
      assert w[0] == v[0] && w[1..] == tail;
    }
  }

  lemma QuotedStep(c: char, t: string)
    ensures Quoted(['\\', c] + t) ==
      match Quoted(t) case None => None case Some(p) => Some(Piece([c] + p.value, p.rest))
    ensures c != '\\' && c != '\'' ==>
      Quoted([c] + t) == match Quoted(t) case None => None case Some(p) => Some(Piece([c] + p.value, p.rest))
  {
    var s := ['\\', c] + t;
    assert s[0] == '\\' && s[1] == c && s[2..] == t;
    var r := [c] + t;
    assert r[0] == c && r[1..] == t;
  }

  function EscapedChar(c: char): string {
    if c == '\\' || c == '\'' then ['\\', c] else [c]
  }

  lemma {:induction false} EscapedReads(v: string, rest: string)
    ensures Quoted(Escaped(v) + ("'" + rest)) == Some(Piece(v, rest))
  {
    if v != "" {
      var e := Escaped(v[1..]);
      EscapedStep(v);
      EscapedReads(v[1..], rest);
      QuotedStep(v[0], e + ("'" + rest));
      Regroup(EscapedChar(v[0]), e, "'" + rest);
      assert [v[0]] + v[1..] == v;
    } else {
      var s := "'" + rest;
      assert s[0] == '\'' && s[1..] == rest && Escaped(v) + s == s;
    }
  }

  /** What is left of the separating space after an unquoted value. */
  function AfterSpace(tail: string): string {
    if tail == "" then "" else tail[1..]
  }

  lemma {:induction false} PlainReads(v: string, tail: string)
    requires NoBlank(v) && '\\' !in v && (tail == "" || IsBlank(tail[0]))
    ensures Unquoted(v + tail) == Piece(v, AfterSpace(tail))
  {
    if v != "" {
      assert v[0] in v;
      assert (v + tail)[1..] == v[1..] + tail;
      PlainReads(v[1..], tail);
    } else {
      assert v + tail == tail;
    }
  }

  lemma {:induction false} NameEnds(k: string, rest: string)
    requires GoodName(k) || k == ""
    ensures NameEnd(k + "=" + rest) == |k|
  {
    if k != "" {
      assert k[0] in k && !IsSpace(k[0]);
      assert (k + "=" + rest)[1..] == k[1..] + "=" + rest;
      NameEnds(k[1..], rest);
    }
  }

  /** Reading one setting, up to the value. */
  lemma ParseName(settings: map<string, string>, k: string, rest: string)
    requires GoodName(k)
    ensures ParseInto(settings, k + "=" + rest) ==
      match ReadValue(SkipBlanks(rest))
      case None => None
      case Some(p) => ParseInto(settings[k := p.value], p.rest)
  {
    var s := k + "=" + rest;
    NameEnds(k, rest);
    assert s[0] == k[0] && k[0] in k && !IsSpace(k[0]);
    assert s[..|k|] == k && s[|k|..] == "=" + rest && ("=" + rest)[1..] == rest;
  }

  lemma ReadQuoted(v: string, tail: string)
    ensures var s := "'" + Escaped(v) + "'" + tail; SkipBlanks(s) == s && ReadValue(s) == Some(Piece(v, tail))
  {
    EscapedReads(v, tail);
    var e := Escaped(v);
    OpensWith(e, tail);
  }

  lemma OpensWith(e: string, tail: string)
    ensures var s := "'" + e + "'" + tail; s[0] == '\'' && s[1..] == e + ("'" + tail)
  {
  }

  lemma ReadPlain(v: string, tail: string)
    requires !NeedsQuotes(v) && NoBlank(v) && (tail == "" || IsBlank(tail[0]))
    ensures SkipBlanks(v + tail) == v + tail && ReadValue(v + tail) == Some(Piece(v, AfterSpace(tail)))
  {
    NotQuoted(v);
    assert (v + tail)[0] == v[0];
    PlainReads(v, tail);
  }

  lemma ReadPrinted(v: string, tail: string)
    requires Printable(v) && (tail == "" || tail[0] == ' ')
    ensures SkipBlanks(QuoteKeywordValue(v) + tail) == QuoteKeywordValue(v) + tail
    ensures ReadValue(QuoteKeywordValue(v) + tail)
         == Some(Piece(v, if NeedsQuotes(v) then tail else AfterSpace(tail)))
  {
    if NeedsQuotes(v) {
      ReadQuoted(v, tail);
    } else {
      ReadPlain(v, tail);
    }
  }

  lemma NotQuoted(v: string)
    requires !NeedsQuotes(v)
    ensures '\\' !in v && '\'' !in v && v[0] != '\'' && v[0] in v
  {
  }

  lemma ParseOne(settings: map<string, string>, k: string, v: string, tail: string)
    requires GoodName(k) && Printable(v) && (tail == "" || tail[0] == ' ')
    ensures ParseInto(settings, Pair(k, v) + tail) == ParseInto(settings[k := v], AfterSpace(tail))
  {
    ReadPrinted(v, tail);
    assert Pair(k, v) + tail == k + "=" + (QuoteKeywordValue(v) + tail);
    ParseName(settings, k, QuoteKeywordValue(v) + tail);
  }

  function Restrict(parts: map<string, string>, ks: seq<string>): map<string, string> {
    map k | k in parts && k in ks :: parts[k]
  }

  lemma PrintStep(ks: seq<string>, parts: map<string, string>)
    requires ks != [] && forall k :: k in ks ==> k in parts
    ensures Print(ks, parts) == Pair(ks[0], parts[ks[0]]) + if |ks| == 1 then "" else " " + Print(ks[1..], parts)
  {
    assert Pairs(ks, parts)[1..] == Pairs(ks[1..], parts);
  }

  lemma RestrictStep(settings: map<string, string>, ks: seq<string>, parts: map<string, string>)
    requires ks != [] && ks[0] in parts
    ensures settings[ks[0] := parts[ks[0]]] + Restrict(parts, ks[1..]) == settings + Restrict(parts, ks)
  {
    assert ks == [ks[0]] + ks[1..];
  }

  lemma {:induction false} ParsePrintedInto(settings: map<string, string>, ks: seq<string>, parts: map<string, string>)
    requires forall k :: k in ks ==> k in parts && GoodName(k) && Printable(parts[k])
    ensures ParseInto(settings, Print(ks, parts)) == Some(settings + Restrict(parts, ks))
    decreases |ks|
  {
    if ks == [] {
      assert settings + Restrict(parts, ks) == settings;
    } else {
      PrintStep(ks, parts);
      var k, tail := ks[0], if |ks| == 1 then "" else " " + Print(ks[1..], parts);
      ParseOne(settings, k, parts[k], tail);
      ParsePrintedInto(settings[k := parts[k]], ks[1..], parts);
      assert AfterSpace(tail) == Print(ks[1..], parts);
      RestrictStep(settings, ks, parts);
    }
  }

  /** Whatever the order, PostgreSQL reads the printed settings back. */
  lemma ParsePrinted(ks: seq<string>, parts: map<string, string>)
    requires Lists(ks, parts) && forall k :: k in parts ==> GoodName(k) && Printable(parts[k])
    ensures Parse(Print(ks, parts)) == Some(parts)
  {
    ParsePrintedInto(map[], ks, parts);
    assert map[] + Restrict(parts, ks) == parts;
  }

  // ---------------------------------------------------------------------------------------------
  // ... exactly if every value is printable
  // ---------------------------------------------------------------------------------------------

  /** The blanks that do not call for quotes. */
  predicate IsBreak(c: char) {
    IsBlank(c) && c != ' ' && c != '\t'
  }

  function Breaks(s: string): nat {
    if s == "" then 0 else (if IsBreak(s[0]) then 1 else 0) + Breaks(s[1..])
  }

  lemma {:induction false} BreaksJoin(a: string, b: string)
    ensures Breaks(a + b) == Breaks(a) + Breaks(b)
  {
    if a == "" {
      assert a + b == b;
    } else {
      assert (a + b)[1..] == a[1..] + b;
      BreaksJoin(a[1..], b);
    }
  }

  lemma {:induction false} NoBreaks(s: string)
    requires forall c :: c in s ==> !IsBreak(c)
    ensures Breaks(s) == 0
  {
    if s != "" {
      NoBreaks(s[1..]);
    }
  }

  lemma BreaksAfter(s: string, n: nat)
    requires n <= |s|
    ensures Breaks(s[n..]) <= Breaks(s)
  {
    assert s == s[..n] + s[n..];
    BreaksJoin(s[..n], s[n..]);
  }

  lemma {:induction false} SkipBreaks(s: string)
    ensures Breaks(SkipBlanks(s)) <= Breaks(s)
  {
    if s != "" && IsBlank(s[0]) {
      SkipBreaks(s[1..]);
    }
  }

  lemma {:induction false} UnquotedBreaks(s: string)
    ensures Breaks(Unquoted(s).value) + Breaks(Unquoted(s).rest) <= Breaks(s)
    decreases |s|
  {
    if s != "" && !IsBlank(s[0]) && s != "\\" {
      var n := if s[0] == '\\' then 1 else 0;
      UnquotedBreaks(s[n + 1..]);
      BreaksAfter(s, n);
      assert s[n..][1..] == s[n + 1..];
      BreaksJoin([s[n]], Unquoted(s[n + 1..]).value);
      BreaksJoin([s[n]], s[n + 1..]);
      assert [s[n]] + s[n + 1..] == s[n..];
    }
  }

  lemma {:induction false} QuotedBreaks(s: string)
    ensures Quoted(s).Some? ==> Breaks(Quoted(s).value.value) + Breaks(Quoted(s).value.rest) <= Breaks(s)
    decreases |s|
  {
    if s != "" && s != "\\" && s[0] != '\'' {
      var n := if s[0] == '\\' then 1 else 0;
      QuotedBreaks(s[n + 1..]);
      BreaksAfter(s, n);
      assert [s[n]] + s[n + 1..] == s[n..];
      BreaksJoin([s[n]], s[n + 1..]);
      if Quoted(s[n + 1..]).Some? {
        BreaksJoin([s[n]], Quoted(s[n + 1..]).value.value);
      }
    }
  }

  /** Reading a value makes no breaks. */
  lemma ReadBreaks(s: string)
    ensures ReadValue(s).Some? ==> Breaks(ReadValue(s).value.value) + Breaks(ReadValue(s).value.rest) <= Breaks(s)
  {
    UnquotedBreaks(s);
    if s != "" {
      QuotedBreaks(s[1..]);
    }
  }

  /** The breaks in the values of these settings. */
  function AllBreaks(ks: seq<string>, settings: map<string, string>): nat {
    if ks == [] then 0
    else (if ks[0] in settings then Breaks(settings[ks[0]]) else 0) + AllBreaks(ks[1..], settings)
  }

  lemma {:induction false} OneMoreSetting(ks: seq<string>, settings: map<string, string>, k: string, v: string)
    requires NoDuplicates(ks)
    ensures AllBreaks(ks, settings[k := v]) <= AllBreaks(ks, settings) + Breaks(v)
    ensures k !in ks ==> AllBreaks(ks, settings[k := v]) == AllBreaks(ks, settings)
  {
    if ks != [] {
      assert forall i, j :: 0 <= i < j < |ks[1..]| ==> ks[1..][i] == ks[i + 1] && ks[1..][j] == ks[j + 1];
      OneMoreSetting(ks[1..], settings, k, v);
    }
  }

  /** Nor does reading settings. */
  lemma {:induction false} ParseBreaks(ks: seq<string>, settings: map<string, string>, s: string)
    requires NoDuplicates(ks)
    ensures var r := ParseInto(settings, s); r.Some? ==> AllBreaks(ks, r.value) <= AllBreaks(ks, settings) + Breaks(s)
    decreases |s|
  {
    if s != "" && IsBlank(s[0]) {
      ParseBreaks(ks, settings, s[1..]);
    } else if s != "" {
      var n := NameEnd(s);
      var eq := SkipBlanks(s[n..]);
      BreaksAfter(s, n);
      SkipBreaks(s[n..]);
      if eq != "" && eq[0] == '=' {
        var v := SkipBlanks(eq[1..]);
        SkipBreaks(eq[1..]);
        ReadBreaks(v);
        if ReadValue(v).Some? {
          var p := ReadValue(v).value;
          OneMoreSetting(ks, settings, s[..n], p.value);
          ParseBreaks(ks, settings[s[..n] := p.value], p.rest);
        }
      }
    }
  }

  lemma {:induction false} EscapedBreaks(v: string)
    ensures Breaks(Escaped(v)) == Breaks(v)
  {
    if v != "" {
      EscapedStep(v);
      EscapedBreaks(v[1..]);
      BreaksJoin(EscapedChar(v[0]), Escaped(v[1..]));
      assert Breaks([v[0]]) == Breaks(EscapedChar(v[0])) by {
        if v[0] == '\\' || v[0] == '\'' {
          NoBreaks(EscapedChar(v[0]));
          NoBreaks([v[0]]);
        }
      }
      BreaksJoin([v[0]], v[1..]);
      assert [v[0]] + v[1..] == v;
    }
  }

  lemma PairBreaks(k: string, v: string)
    requires GoodName(k)
    ensures Breaks(Pair(k, v)) == Breaks(v)
  {
    NoBreaks(k + "=");
    BreaksJoin(k + "=", QuoteKeywordValue(v));
    if NeedsQuotes(v) {
      EscapedBreaks(v);
      NoBreaks("'");
      BreaksJoin("'", Escaped(v));
      BreaksJoin("'" + Escaped(v), "'");
    }
  }

  /** A break in a bare value is taken for the end of it. */
  lemma {:induction false} BareLoses(v: string, tail: string)
    requires Breaks(v) > 0 && '\\' !in v && ' ' !in v && '\t' !in v
    ensures var p := Unquoted(v + tail); Breaks(p.value) + Breaks(p.rest) < Breaks(v + tail)
  {
    assert (v + tail)[1..] == v[1..] + tail;
    if !IsBlank(v[0]) {
      BareLoses(v[1..], tail);
      var p := Unquoted(v[1..] + tail);
      BreaksJoin([v[0]], p.value);
    }
  }

  lemma ValueLoses(v: string, tail: string)
    requires !Printable(v)
    ensures var r := ReadValue(SkipBlanks(v + tail));
      r.Some? ==> Breaks(r.value.value) + Breaks(r.value.rest) < Breaks(v + tail)
  {
    NotQuoted(v);
    HasBreak(v);
    var s := v + tail;
    if IsBlank(v[0]) {
      SkipBreaks(s[1..]);
      ReadBreaks(SkipBlanks(s));
    } else {
      BareLoses(v, tail);
    }
  }

  lemma {:induction false} HasBreak(v: string)
    requires !NoBlank(v) && forall c :: c in v ==> c != ' ' && c != '\t'
    ensures Breaks(v) > 0
  {
    if !IsBlank(v[0]) {
      var c :| c in v && IsBlank(c);
      assert c in v[1..] && forall d :: d in v[1..] ==> d in v;
      HasBreak(v[1..]);
    } else {
      assert v[0] in v;
    }
  }

  lemma PrintBreaks(ks: seq<string>, parts: map<string, string>)
    requires ks != [] && (forall k :: k in ks ==> k in parts) && GoodName(ks[0])
    ensures var tail := if |ks| == 1 then "" else " " + Print(ks[1..], parts);
      Breaks(Print(ks, parts)) == Breaks(parts[ks[0]]) + Breaks(tail)
    ensures |ks| > 1 ==> Breaks(" " + Print(ks[1..], parts)) == Breaks(Print(ks[1..], parts))
  {
    PrintStep(ks, parts);
    var tail := if |ks| == 1 then "" else " " + Print(ks[1..], parts);
    PairBreaks(ks[0], parts[ks[0]]);
    BreaksJoin(Pair(ks[0], parts[ks[0]]), tail);
    if |ks| > 1 {
      NoBreaks(" ");
      BreaksJoin(" ", Print(ks[1..], parts));
    }
  }

  /** The breaks of the settings still to be read; one of them gets lost if a value is not printable. */
  lemma {:induction false} PrintLoses(all: seq<string>, settings: map<string, string>, ks: seq<string>,
                                      parts: map<string, string>)
    requires NoDuplicates(all) && forall k :: k in ks ==> k in parts && GoodName(k)
    requires exists k :: k in ks && !Printable(parts[k])
    ensures var r := ParseInto(settings, Print(ks, parts));
      r.Some? ==> AllBreaks(all, r.value) < AllBreaks(all, settings) + Breaks(Print(ks, parts))
    decreases |ks|
  {
    var k, v := ks[0], parts[ks[0]];
    var tail := if |ks| == 1 then "" else " " + Print(ks[1..], parts);
    PrintStep(ks, parts);
    PrintBreaks(ks, parts);
    if Printable(v) {
      assert ks == [k] + ks[1..];
      ParseOne(settings, k, v, tail);
      OneMoreSetting(all, settings, k, v);
      assert AfterSpace(tail) == Print(ks[1..], parts);
      PrintLoses(all, settings[k := v], ks[1..], parts);
    } else {
      LosesHere(all, settings, k, v, tail);
    }
  }

  lemma LosesHere(all: seq<string>, settings: map<string, string>, k: string, v: string, tail: string)
    requires NoDuplicates(all) && GoodName(k) && !Printable(v)
    ensures var r := ParseInto(settings, Pair(k, v) + tail);
      r.Some? ==> AllBreaks(all, r.value) < AllBreaks(all, settings) + Breaks(v) + Breaks(tail)
  {
    assert Pair(k, v) + tail == k + "=" + (v + tail);
    ParseName(settings, k, v + tail);
    ValueLoses(v, tail);
    BreaksJoin(v, tail);
    var r := ReadValue(SkipBlanks(v + tail));
    if r.Some? {
      OneMoreSetting(all, settings, k, r.value.value);
      ParseBreaks(all, settings[k := r.value.value], r.value.rest);
    }
  }

  lemma {:induction false} PrintHasAll(ks: seq<string>, parts: map<string, string>)
    requires forall k :: k in ks ==> k in parts && GoodName(k)
    ensures Breaks(Print(ks, parts)) == AllBreaks(ks, parts)
  {
    if ks != [] {
      PrintBreaks(ks, parts);
      PrintHasAll(ks[1..], parts);
    }
  }

  lemma {:induction false} NothingYet(ks: seq<string>)
    ensures AllBreaks(ks, map[]) == 0
  {
    if ks != [] {
      NothingYet(ks[1..]);
    }
  }

  /** Whatever the order, PostgreSQL reads the printed settings back exactly if all are printable. */
  lemma PrintableExactly(ks: seq<string>, parts: map<string, string>)
    requires Lists(ks, parts) && forall k :: k in parts ==> GoodName(k)
    ensures Parse(Print(ks, parts)) == Some(parts) <==> forall k :: k in parts ==> Printable(parts[k])
  {
    if forall k :: k in parts ==> Printable(parts[k]) {
      ParsePrinted(ks, parts);
    } else {
      var k :| k in parts && !Printable(parts[k]);
      assert k in ks;
      PrintLoses(ks, map[], ks, parts);
      PrintHasAll(ks, parts);
      NothingYet(ks);
    }
  }

  // ---------------------------------------------------------------------------------------------
  // The splitter
  // ---------------------------------------------------------------------------------------------

  predicate NoSpace(s: string) {
    forall c :: c in s ==> !IsSpace(c)
  }

  function WordEnd(s: string): (n: nat)
    ensures n <= |s| && NoSpace(s[..n]) && (n < |s| ==> IsSpace(s[n]))
  {
    if s == "" || IsSpace(s[0]) then 0
    else
      var n := WordEnd(s[1..]);
      assert s[..n + 1] == [s[0]] + s[1..][..n];
      n + 1
  }

  /** strings.Fields */
  function Fields(s: string): (words: seq<string>)
    ensures forall w :: w in words ==> w != "" && NoSpace(w)
    decreases |s|
  {
    if s == "" then []
    else if IsSpace(s[0]) then Fields(s[1..])
    else
      var n := WordEnd(s);
      [s[..n]] + Fields(s[n..])
  }

  function TrimQuotesLeft(s: string): string {
    if s != "" && s[0] == '\'' then TrimQuotesLeft(s[1..]) else s
  }

  function TrimQuotesRight(s: string): string {
    if s != "" && s[|s| - 1] == '\'' then TrimQuotesRight(s[..|s| - 1]) else s
  }

  /** strings.Trim of single quotes. */
  function TrimQuotes(s: string): string {
    TrimQuotesRight(TrimQuotesLeft(s))
  }

  predicate Quotes(s: string) {
    forall c :: c in s ==> c == '\''
  }

  lemma {:induction false} TrimQuotesLeftCuts(s: string) returns (before: string)
    ensures s == before + TrimQuotesLeft(s) && Quotes(before)
    ensures TrimQuotesLeft(s) == "" || TrimQuotesLeft(s)[0] != '\''
  {
    before := "";
    if s != "" && s[0] == '\'' {
      before := TrimQuotesLeftCuts(s[1..]);
      before := "'" + before;
    }
  }

  lemma {:induction false} TrimQuotesRightCuts(s: string) returns (after: string)
    ensures s == TrimQuotesRight(s) + after && Quotes(after)
    ensures !EndsIn(TrimQuotesRight(s), '\'')
  {
    after := "";
    if s != "" && s[|s| - 1] == '\'' {
      after := TrimQuotesRightCuts(s[..|s| - 1]);
      after := after + "'";
    }
  }

  /** Quotes are cut off at either end as far as there are any, and nothing else. */
  lemma TrimQuotesExactly(s: string) returns (before: string, after: string)
    ensures s == before + TrimQuotes(s) + after && Quotes(before) && Quotes(after)
    ensures TrimQuotes(s) == "" || (TrimQuotes(s)[0] != '\'' && !EndsIn(TrimQuotes(s), '\''))
  {
    before := TrimQuotesLeftCuts(s);
    after := TrimQuotesRightCuts(TrimQuotesLeft(s));
  }

  /** One field: skipped without a name or an equals sign. */
  function WithField(parts: map<string, string>, f: string): map<string, string> {
    var eq := IndexOf(f, '=');
    if eq == 0 || eq == |f| then parts else parts[f[..eq] := TrimQuotes(f[eq + 1..])]
  }

  function WithFields(fields: seq<string>): map<string, string> {
    if fields == [] then map[]
    else
      var n := |fields| - 1;
      WithField(WithFields(fields[..n]), fields[n])
  }

  /** What splitKeywordDSN makes of a DSN. */
  function Split(dsn: string): map<string, string> {
    WithFields(Fields(dsn))
  }

  predicate Names(f: string, k: string, v: string) {
    k != "" && '=' !in k && f == k + "=" + v
  }

  lemma NamesAt(parts: map<string, string>, f: string, k: string, v: string)
    requires Names(f, k, v)
    ensures WithField(parts, f) == parts[k := TrimQuotes(v)]
  {
    IndexAfter(k, '=', v);
    assert f[..|k|] == k && f[|k| + 1..] == v;
  }

  /** A field that names nothing is passed over. */
  lemma NamesOr(parts: map<string, string>, f: string) returns (k: string, v: string)
    ensures Names(f, k, v) || WithField(parts, f) == parts
  {
    var eq := IndexOf(f, '=');
    k, v := f[..eq], if eq < |f| then f[eq + 1..] else "";
    if 0 < eq < |f| {
      assert f == k + "=" + v;
    }
  }

  lemma NamesOther(parts: map<string, string>, f: string, k: string)
    requires forall v :: !Names(f, k, v)
    ensures k in WithField(parts, f) <==> k in parts
    ensures k in parts ==> WithField(parts, f)[k] == parts[k]
  {
    var j, w := NamesOr(parts, f);
    if Names(f, j, w) {
      NamesAt(parts, f, j, w);
    }
  }

  /** The last field that names a key gives its value, without the quotes around it. */
  lemma {:induction false} LastFieldWins(fields: seq<string>, i: nat, k: string, v: string)
    requires i < |fields| && Names(fields[i], k, v)
    requires forall j, w :: i < j < |fields| ==> !Names(fields[j], k, w)
    ensures k in WithFields(fields) && WithFields(fields)[k] == TrimQuotes(v)
  {
    var n := |fields| - 1;
    if i == n {
      NamesAt(WithFields(fields[..n]), fields[n], k, v);
    } else {
      LastFieldWins(fields[..n], i, k, v);
      NamesOther(WithFields(fields[..n]), fields[n], k);
    }
  }

  /** A key no field names is not there. */
  lemma {:induction false} NoFieldNames(fields: seq<string>, k: string)
    requires forall i, v :: 0 <= i < |fields| ==> !Names(fields[i], k, v)
    ensures k !in WithFields(fields)
  {
    if fields != [] {
      NoFieldNames(fields[..|fields| - 1], k);
      NamesOther(WithFields(fields[..|fields| - 1]), fields[|fields| - 1], k);
    }
  }

  method SplitKeywordDSN(dsn: string) returns (parts: map<string, string>)
    ensures parts == Split(dsn)
  {
    parts := map[];
    var fields := Fields(dsn);
    for i := 0 to |fields|
      invariant parts == WithFields(fields[..i])
    {
      assert fields[..i + 1][..i] == fields[..i];
      var f := fields[i];
      var eq := IndexOf(f, '=');
      if eq == |f| || eq == 0 {
        continue;
      }
      parts := parts[f[..eq] := TrimQuotes(f[eq + 1..])];
    }
    assert fields[..|fields|] == fields;
  }

  // ---------------------------------------------------------------------------------------------
  // What the splitter undoes
  // ---------------------------------------------------------------------------------------------

  lemma {:induction false} TrimLeftPart(s: string)
    ensures forall c :: c in TrimQuotesLeft(s) ==> c in s
    ensures multiset(TrimQuotesLeft(s))['\\'] == multiset(s)['\\']
  {
    if s != "" && s[0] == '\'' {
      TrimLeftPart(s[1..]);
      assert s == [s[0]] + s[1..];
    }
  }

  lemma {:induction false} TrimRightPart(s: string)
    ensures forall c :: c in TrimQuotesRight(s) ==> c in s
    ensures multiset(TrimQuotesRight(s))['\\'] == multiset(s)['\\']
  {
    if s != "" && s[|s| - 1] == '\'' {
      TrimRightPart(s[..|s| - 1]);
      assert s == s[..|s| - 1] + [s[|s| - 1]];
    }
  }

  /** Trimming removes quotes only. */
  lemma TrimQuotesPart(s: string)
    ensures forall c :: c in TrimQuotes(s) ==> c in s
    ensures multiset(TrimQuotes(s))['\\'] == multiset(s)['\\']
  {
    TrimLeftPart(s);
    TrimRightPart(TrimQuotesLeft(s));
  }

  /** Split names are good names, and no split value holds a space. */
  lemma {:induction false} SplitClean(fields: seq<string>)
    requires forall f :: f in fields ==> NoSpace(f)
    ensures forall k :: k in WithFields(fields) ==> GoodName(k) && NoSpace(WithFields(fields)[k])
  {
    if fields != [] {
      var n := |fields| - 1;
      SplitClean(fields[..n]);
      var f := fields[n];
      assert f in fields;
      var eq := IndexOf(f, '=');
      if 0 < eq < |f| {
        TrimQuotesPart(f[eq + 1..]);
        assert forall c :: c in f[..eq] ==> c in f;
        assert forall c :: c in f[eq + 1..] ==> c in f;
      }
    }
  }

  lemma {:induction false} WordEnds(w: string, tail: string)
    requires NoSpace(w) && (tail == "" || IsSpace(tail[0]))
    ensures WordEnd(w + tail) == |w|
  {
    if w == "" {
      assert w + tail == tail;
    } else {
      assert w[0] in w;
      assert (w + tail)[1..] == w[1..] + tail;
      WordEnds(w[1..], tail);
    }
  }

  lemma FieldsWord(w: string, tail: string)
    requires w != "" && NoSpace(w) && (tail == "" || IsSpace(tail[0]))
    ensures Fields(w + tail) == [w] + Fields(tail)
  {
    WordEnds(w, tail);
    assert w[0] in w && (w + tail)[0] == w[0];
    assert (w + tail)[..|w|] == w && (w + tail)[|w|..] == tail;
  }

  /** Space before a word is no part of it. */
  lemma {:induction false} FieldsSkip(space: string, s: string)
    requires Blank(space)
    ensures Fields(space + s) == Fields(s)
  {
    if space == "" {
      assert space + s == s;
    } else {
      assert space[0] in space && (space + s)[1..] == space[1..] + s;
      FieldsSkip(space[1..], s);
    }
  }

  lemma FieldsNext(w: string, rest: string)
    requires w != "" && NoSpace(w)
    ensures Fields(w + " " + rest) == [w] + Fields(rest)
  {
    FieldsWord(w, " " + rest);
    assert w + " " + rest == w + (" " + rest);
    assert (" " + rest)[1..] == rest;
  }

  lemma {:induction false} FieldsJoined(words: seq<string>)
    requires forall i :: 0 <= i < |words| ==> words[i] != "" && NoSpace(words[i])
    ensures Fields(JoinSpaces(words)) == words
  {
    if |words| == 1 {
      FieldsWord(words[0], "");
      assert words[0] + "" == words[0];
    } else if words != [] {
      FieldsNext(words[0], JoinSpaces(words[1..]));
      FieldsJoined(words[1..]);
    }
  }

  lemma {:induction false} EscapedNoSpace(v: string)
    requires NoSpace(v)
    ensures NoSpace(Escaped(v))
  {
    if v != "" {
      EscapedStep(v);
      assert v[0] in v;
      EscapedNoSpace(v[1..]);
    }
  }

  lemma PairIsWord(k: string, v: string)
    requires GoodName(k) && NoSpace(v)
    ensures Pair(k, v) != "" && NoSpace(Pair(k, v))
  {
    EscapedNoSpace(v);
    assert NoSpace("'") && NoSpace("=");
  }

  lemma PairSplits(parts: map<string, string>, k: string, v: string)
    requires GoodName(k)
    ensures WithField(parts, Pair(k, v)) == parts[k := TrimQuotes(QuoteKeywordValue(v))]
  {
    var q := QuoteKeywordValue(v);
    IndexAfter(k, '=', q);
    assert k + ['='] + q == Pair(k, v);
    assert Pair(k, v)[..|k|] == k && Pair(k, v)[|k| + 1..] == q;
  }

  function Resplit(parts: map<string, string>, ks: seq<string>): map<string, string> {
    map k | k in parts && k in ks :: TrimQuotes(QuoteKeywordValue(parts[k]))
  }

  lemma ResplitNext(parts: map<string, string>, ks: seq<string>, k: string)
    requires k in parts
    ensures Resplit(parts, ks + [k]) == Resplit(parts, ks)[k := TrimQuotes(QuoteKeywordValue(parts[k]))]
  {
  }

  lemma WithFieldsNext(fields: seq<string>, f: string)
    ensures WithFields(fields + [f]) == WithField(WithFields(fields), f)
  {
    assert (fields + [f])[..|fields|] == fields;
  }

  lemma {:induction false} PairsSplit(ks: seq<string>, parts: map<string, string>)
    requires forall k :: k in ks ==> k in parts && GoodName(k)
    ensures WithFields(Pairs(ks, parts)) == Resplit(parts, ks)
  {
    if ks != [] {
      var before, k := ks[..|ks| - 1], ks[|ks| - 1];
      assert ks == before + [k];
      PairsSplit(before, parts);
      PairsNext(before, k, parts);
      WithFieldsNext(Pairs(before, parts), Pair(k, parts[k]));
      PairSplits(Resplit(parts, before), k, parts[k]);
      ResplitNext(parts, before, k);
    }
  }

  /** The values that print as they are, or as nothing in quotes. */
  predicate Plain(v: string) {
    NoSpace(v) && '\\' !in v && '\'' !in v
  }

  lemma {:induction false} EscapedCount(v: string)
    ensures multiset(Escaped(v))['\\'] == 2 * multiset(v)['\\'] + multiset(v)['\'']
  {
    if v != "" {
      EscapedStep(v);
      EscapedCount(v[1..]);
      var head, tail := EscapedChar(v[0]), Escaped(v[1..]);
      assert v == [v[0]] + v[1..] && multiset(v) == multiset([v[0]]) + multiset(v[1..]);
      assert multiset(head + tail) == multiset(head) + multiset(tail);
    }
  }

  lemma PlainExactly(v: string)
    requires NoSpace(v)
    ensures TrimQuotes(QuoteKeywordValue(v)) == v <==> Plain(v)
  {
    if v == "" {
      assert "''"[1..] == "'" && "'"[1..] == "";
      assert Escaped("") == "" && "'" + "" + "'" == "''";
    } else if Plain(v) {
      assert v[0] in v && v[|v| - 1] in v;
    } else {
      var q := "'" + Escaped(v) + "'";
      assert NeedsQuotes(v);
      EscapedCount(v);
      assert multiset(q)['\\'] == multiset(Escaped(v))['\\'];
      TrimQuotesPart(q);
      assert '\\' in multiset(v) || '\'' in multiset(v);
    }
  }

  lemma SplitWords(ks: seq<string>, parts: map<string, string>)
    requires forall k :: k in ks ==> k in parts && GoodName(k) && NoSpace(parts[k])
    ensures Split(Print(ks, parts)) == Resplit(parts, ks)
  {
    forall i | 0 <= i < |ks| ensures Pairs(ks, parts)[i] != "" && NoSpace(Pairs(ks, parts)[i]) {
      PairIsWord(ks[i], parts[ks[i]]);
    }
    FieldsJoined(Pairs(ks, parts));
    PairsSplit(ks, parts);
  }

  /** The splitter takes a printed DSN apart again exactly if every value is plain. */
  lemma SplitPrinted(ks: seq<string>, parts: map<string, string>)
    requires Lists(ks, parts) && forall k :: k in parts ==> GoodName(k)
    ensures Split(Print(ks, parts)) == parts <==> forall k :: k in parts ==> Plain(parts[k])
  {
    if k :| k in parts && !NoSpace(parts[k]) {
      SplitClean(Fields(Print(ks, parts)));
      assert !Plain(parts[k]);
    } else {
      SplitWords(ks, parts);
      forall k | k in parts ensures Resplit(parts, ks)[k] == parts[k] <==> Plain(parts[k]) {
        PlainExactly(parts[k]);
      }
    }
  }

  /** So on printed DSNs the splitter and PostgreSQL agree exactly then. */
  lemma SplitReadsLikePostgres(ks: seq<string>, parts: map<string, string>)
    requires Lists(ks, parts) && forall k :: k in parts ==> GoodName(k) && Printable(parts[k])
    ensures Parse(Print(ks, parts)) == Some(Split(Print(ks, parts))) <==> forall k :: k in parts ==> Plain(parts[k])
  {
    ParsePrinted(ks, parts);
    SplitPrinted(ks, parts);
  }

  // ---------------------------------------------------------------------------------------------
  // joinKeywordDSN
  // ---------------------------------------------------------------------------------------------

  /** The second loop: the other names, in any order at all. */
  method JoinOthers(parts: map<string, string>, before: seq<string>, seen: set<string>, ghost known: seq<string>)
    returns (out: seq<string>, ghost ks: seq<string>)
    requires NoDuplicates(known) && (forall k :: k in known ==> k in parts) && seen == (set k | k in known)
    requires before == Pairs(known, parts)
    ensures Lists(ks, parts) && known <= ks && out == Pairs(ks, parts)
  {
    out, ks := before, known;
    var todo := parts.Keys;
    while todo != {}
      invariant known <= ks && NoDuplicates(ks) && todo <= parts.Keys
      invariant forall k :: k in ks <==> k in parts && (k in seen || k !in todo)
      invariant out == Pairs(ks, parts)
    {
      var k :| k in todo;
      todo := todo - {k};
      if k in seen {
        continue;
      }
      PairsNext(ks, k, parts);
      out := out + [Pair(k, parts[k])];
      ks := ks + [k];
    }
  }

  /** The well-known names in their order, then the others in any order at all.  PostgreSQL reads
      the settings back exactly if all values are printable, the splitter exactly if all are plain. */
  method JoinKeywordDSN(parts: map<string, string>) returns (dsn: string)
    ensures exists ks :: Lists(ks, parts) && Present(ORDER, parts) <= ks && dsn == Print(ks, parts)
    ensures (forall k :: k in parts ==> GoodName(k)) ==>
              && (Parse(dsn) == Some(parts) <==> forall k :: k in parts ==> Printable(parts[k]))
              && (Split(dsn) == parts <==> forall k :: k in parts ==> Plain(parts[k]))
  {
    OrderNoDuplicates();
    var out, seen;
    ghost var known, ks;
    out, seen, known := JoinKnown(ORDER, parts);
    out, ks := JoinOthers(parts, out, seen, known);
    dsn := JoinSpaces(out);
    Joined(ks, parts);
  }

  lemma Joined(ks: seq<string>, parts: map<string, string>)
    requires Lists(ks, parts)
    ensures var dsn := Print(ks, parts);
      (forall k :: k in parts ==> GoodName(k)) ==>
        && (Parse(dsn) == Some(parts) <==> forall k :: k in parts ==> Printable(parts[k]))
        && (Split(dsn) == parts <==> forall k :: k in parts ==> Plain(parts[k]))
  {
    if forall k :: k in parts ==> GoodName(k) {
      PrintableExactly(ks, parts);
      SplitPrinted(ks, parts);
    }
  }

  // ---------------------------------------------------------------------------------------------
  // The maintenance DSN
  // ---------------------------------------------------------------------------------------------

  /** A DSN in URL form is not part of this model. */
  datatype Maintenance = UrlForm | NoDatabase | Maintenance(target: string, dsn: string)

  function MaintenanceName(configured: string): string {
    if TrimSpace(configured) == "" then "postgres" else TrimSpace(configured)
  }

  /** The database to connect to meanwhile: postgres, unless another is configured. */
  lemma MaintenanceNames(configured: string)
    ensures Blank(configured) ==> MaintenanceName(configured) == "postgres"
    ensures !Blank(configured) ==> MaintenanceName(configured) == TrimSpace(configured)
  {
    TrimSpaceTrims(configured);
  }

  function Others(parts: map<string, string>): map<string, string> {
    parts - {"dbname"}
  }

  /** The keyword branch of postgresMaintenanceDSN: the settings the splitter saw, with another
      database.  PostgreSQL reads them so exactly if the name is printable, the splitter itself
      exactly if all are plain.  They are what PostgreSQL would have read from the original, with
      another database, exactly if the splitter had read the others like PostgreSQL. */
  method PostgresMaintenanceDSN(dsn: string, maintenanceDB: string) returns (r: Maintenance)
    ensures r.UrlForm? <==> "postgres://" <= TrimSpace(dsn) || "postgresql://" <= TrimSpace(dsn)
    ensures var parts := Split(TrimSpace(dsn));
      && (r.NoDatabase? <==> !r.UrlForm? && ("dbname" !in parts || parts["dbname"] == ""))
      && (r.Maintenance? ==> r.target == parts["dbname"])
    ensures r.Maintenance? ==>
      var name := MaintenanceName(maintenanceDB);
      var wanted := Split(TrimSpace(dsn))["dbname" := name];
      && (Parse(r.dsn) == Some(wanted) <==> Printable(name))
      && (Split(r.dsn) == wanted <==> forall k :: k in wanted ==> Plain(wanted[k]))
    ensures r.Maintenance? && Printable(MaintenanceName(maintenanceDB)) && Parse(TrimSpace(dsn)).Some? ==>
      var meant := Parse(TrimSpace(dsn)).value;
      (Parse(r.dsn) == Some(meant["dbname" := MaintenanceName(maintenanceDB)])
       <==> Others(meant) == Others(Split(TrimSpace(dsn))))
  {
    var name := TrimSpace(maintenanceDB);
    if name == "" {
      name := "postgres";
    }
    var trimmed := TrimSpace(dsn);
    if "postgres://" <= trimmed || "postgresql://" <= trimmed {
      return UrlForm;
    }
    var parts := SplitKeywordDSN(trimmed);
    var target := if "dbname" in parts then parts["dbname"] else "";
    if target == "" {
      return NoDatabase;
    }
    SplitClean(Fields(trimmed));
    parts := parts["dbname" := name];
    Readable(parts, Split(trimmed), name);
    var joined := JoinKeywordDSN(parts);
    if Parse(trimmed).Some? {
      OthersDecide(Parse(trimmed).value, Split(trimmed), name);
    }
    r := Maintenance(target, joined);
  }

  lemma Readable(parts: map<string, string>, was: map<string, string>, name: string)
    requires parts == was["dbname" := name]
    requires forall k :: k in was ==> GoodName(k) && NoSpace(was[k])
    ensures forall k :: k in parts ==> GoodName(k)
    ensures Printable(name) <==> forall k :: k in parts ==> Printable(parts[k])
  {
    assert GoodName("dbname");
    assert "dbname" in parts;
    forall k | k in was ensures Printable(was[k]) {
      assert NoBlank(was[k]);
    }
  }

  lemma OthersDecide(a: map<string, string>, b: map<string, string>, name: string)
    ensures a["dbname" := name] == b["dbname" := name] <==> Others(a) == Others(b)
  {
    assert Others(a["dbname" := name]) == Others(a) && Others(b["dbname" := name]) == Others(b);
    assert a["dbname" := name] == Others(a)["dbname" := name];
    assert b["dbname" := name] == Others(b)["dbname" := name];
  }

  // ---------------------------------------------------------------------------------------------
  // DSNs the splitter reads like PostgreSQL
  // ---------------------------------------------------------------------------------------------

  /** A field that names a setting and gives it a value. */
  predicate Complete(f: string) {
    0 < IndexOf(f, '=') < |f| - 1
  }

  /** No quotes, no backslashes, no spaces PostgreSQL does not know, every field complete. */
  predicate Simple(dsn: string) {
    (forall i :: 0 <= i < |dsn| ==> Unescaped(dsn[i])) && forall f :: f in Fields(dsn) ==> Complete(f)
  }

  predicate Unescaped(c: char) {
    c != '\'' && c != '\\' && (IsSpace(c) ==> IsBlank(c))
  }

  function FromFront(parts: map<string, string>, fields: seq<string>): map<string, string>
    decreases |fields|
  {
    if fields == [] then parts else FromFront(WithField(parts, fields[0]), fields[1..])
  }

  lemma {:induction false} FrontThenOne(parts: map<string, string>, fields: seq<string>, f: string)
    ensures FromFront(parts, fields + [f]) == WithField(FromFront(parts, fields), f)
    decreases |fields|
  {
    if fields == [] {
      assert [f][1..] == [];
    } else {
      assert (fields + [f])[1..] == fields[1..] + [f];
      FrontThenOne(WithField(parts, fields[0]), fields[1..], f);
    }
  }

  lemma {:induction false} FrontIsBack(fields: seq<string>)
    ensures FromFront(map[], fields) == WithFields(fields)
  {
    if fields != [] {
      var n := |fields| - 1;
      FrontIsBack(fields[..n]);
      FrontThenOne(map[], fields[..n], fields[n]);
      assert fields[..n] + [fields[n]] == fields;
    }
  }

  lemma CompleteField(f: string)
    requires Complete(f) && NoSpace(f) && '\'' !in f && '\\' !in f
    ensures var eq := IndexOf(f, '=');
      var k, v := f[..eq], f[eq + 1..];
      f == k + "=" + v && GoodName(k) && NoSpace(v) && v != "" && '\'' !in v && '\\' !in v
  {
    var eq := IndexOf(f, '=');
    assert forall c :: c in f[..eq] || c in f[eq + 1..] ==> c in f;
  }

  lemma BareValue(v: string)
    requires NoSpace(v) && v != "" && '\'' !in v && '\\' !in v
    ensures NoBlank(v) && !NeedsQuotes(v) && TrimQuotes(v) == v
  {
    assert v[0] in v && v[|v| - 1] in v;
  }

  /** One complete field, read by both. */
  lemma FieldReads(settings: map<string, string>, f: string, tail: string)
    requires Complete(f) && NoSpace(f) && '\'' !in f && '\\' !in f && (tail == "" || IsBlank(tail[0]))
    ensures ParseInto(settings, f + tail) == ParseInto(WithField(settings, f), AfterSpace(tail))
  {
    var eq := IndexOf(f, '=');
    var k, v := f[..eq], f[eq + 1..];
    CompleteField(f);
    BareValue(v);
    Regroup(k + "=", v, tail);
    ParseName(settings, k, v + tail);
    ReadPlain(v, tail);
  }

  lemma SimplePart(dsn: string, n: nat)
    requires n <= |dsn| && forall i :: 0 <= i < |dsn| ==> Unescaped(dsn[i])
    ensures forall i :: 0 <= i < |dsn| - n ==> Unescaped(dsn[n..][i])
    ensures '\'' !in dsn[..n] && '\\' !in dsn[..n]
  {
    forall i | 0 <= i < |dsn| - n ensures Unescaped(dsn[n..][i]) {
      assert Unescaped(dsn[n + i]);
    }
    forall i | 0 <= i < n ensures dsn[..n][i] != '\'' && dsn[..n][i] != '\\' {
      assert Unescaped(dsn[i]);
    }
  }

  lemma FirstField(dsn: string)
    requires dsn != "" && !IsSpace(dsn[0])
    ensures var n := WordEnd(dsn);
      && 0 < n && Fields(dsn) == [dsn[..n]] + Fields(dsn[n..]) && NoSpace(dsn[..n])
      && (dsn[n..] != "" ==> IsSpace(dsn[n..][0]) && Fields(dsn[n..]) == Fields(dsn[n..][1..]))
  {
  }

  lemma {:induction false} SimpleReads(settings: map<string, string>, dsn: string)
    requires Simple(dsn)
    ensures ParseInto(settings, dsn) == Some(FromFront(settings, Fields(dsn)))
    decreases |dsn|
  {
    if dsn == "" {
    } else if IsSpace(dsn[0]) {
      assert Unescaped(dsn[0]);
      SimplePart(dsn, 1);
      SimpleReads(settings, dsn[1..]);
    } else {
      FirstField(dsn);
      var n := WordEnd(dsn);
      var f, tail := dsn[..n], dsn[n..];
      SimplePart(dsn, n);
      var fields := Fields(tail);
      assert Fields(dsn) == [f] + fields;
      assert f in Fields(dsn) && forall g :: g in fields ==> g in Fields(dsn);
      assert tail != "" ==> Unescaped(tail[0]);
      FieldReads(settings, f, tail);
      assert f + tail == dsn;
      if tail != "" {
        SimplePart(tail, 1);
      }
      SimpleReads(WithField(settings, f), AfterSpace(tail));
      assert ([f] + fields)[1..] == fields;
    }
  }

  lemma SimpleReadsAlike(dsn: string)
    requires Simple(dsn)
    ensures Parse(dsn) == Some(Split(dsn))
  {
    SimpleReads(map[], dsn);
    FrontIsBack(Fields(dsn));
  }
}
