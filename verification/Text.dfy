/** The pieces of Go's strings package that the models rest on. */
module Text {
  /** unicode.IsSpace. */
  predicate IsSpace(c: char) {
    || '\t' <= c <= '\r' || c == ' ' || c == '\U{85}' || c == '\U{A0}' || c == '\U{1680}'
    || '\U{2000}' <= c <= '\U{200A}' || c == '\U{2028}' || c == '\U{2029}' || c == '\U{202F}'
    || c == '\U{205F}' || c == '\U{3000}'
  }

  predicate Blank(s: string) {
    forall c :: c in s ==> IsSpace(c)
  }

  function TrimLeft(s: string): string {
    if s != "" && IsSpace(s[0]) then TrimLeft(s[1..]) else s
  }

  function TrimRight(s: string): string {
    if s != "" && IsSpace(s[|s| - 1]) then TrimRight(s[..|s| - 1]) else s
  }

  function TrimSpace(s: string): string {
    TrimRight(TrimLeft(s))
  }

  function TrimSuffix(s: string, c: char): (r: string)
    ensures s == r + [c] || (s == r && !EndsIn(s, c))
  {
    if s != "" && s[|s| - 1] == c then s[..|s| - 1] else s
  }

  predicate Trimmed(s: string) {
    s == "" || (!IsSpace(s[0]) && !IsSpace(s[|s| - 1]))
  }

  lemma {:induction false} TrimLeftBlank(s: string)
    ensures TrimLeft(s) == "" <==> Blank(s)
    ensures TrimLeft(s) != "" ==> !IsSpace(TrimLeft(s)[0])
    ensures |TrimLeft(s)| <= |s| && TrimLeft(s) == s[|s| - |TrimLeft(s)|..]
    ensures forall c :: c in s && c !in TrimLeft(s) ==> IsSpace(c)
  {
    if s != "" && IsSpace(s[0]) {
      TrimLeftBlank(s[1..]);
      assert s == [s[0]] + s[1..];
    } else if s != "" {
      assert s[0] in s;
    }
  }

  lemma {:induction false} TrimRightKeepsFirst(s: string)
    requires s != "" && !IsSpace(s[0])
    ensures TrimRight(s) != "" && TrimRight(s) <= s && Trimmed(TrimRight(s))
  {
    if IsSpace(s[|s| - 1]) {
      TrimRightKeepsFirst(s[..|s| - 1]);
    }
  }

  /** Trimming leaves nothing exactly of a blank string, and otherwise no space at either end. */
  lemma TrimSpaceTrims(s: string)
    ensures TrimSpace(s) == "" <==> Blank(s)
    ensures Trimmed(TrimSpace(s))
  {
    TrimLeftBlank(s);
    if TrimLeft(s) != "" {
      TrimRightKeepsFirst(TrimLeft(s));
    }
  }

  lemma {:induction false} TrimRightCuts(s: string)
    ensures TrimRight(s) <= s && Blank(s[|TrimRight(s)|..])
  {
    if s != "" && IsSpace(s[|s| - 1]) {
      var init := s[..|s| - 1];
      TrimRightCuts(init);
      assert s[|TrimRight(s)|..] == init[|TrimRight(s)|..] + [s[|s| - 1]];
    }
  }

  /** Trimming cuts space off either end and nothing else. */
  lemma TrimSpaceMiddle(s: string) returns (before: string, after: string)
    ensures s == before + TrimSpace(s) + after && Blank(before) && Blank(after)
  {
    TrimLeftBlank(s);
    TrimLeftCuts(s);
    TrimRightCuts(TrimLeft(s));
    before, after := s[..|s| - |TrimLeft(s)|], TrimLeft(s)[|TrimSpace(s)|..];
  }

  lemma {:induction false} TrimLeftCuts(s: string)
    ensures |TrimLeft(s)| <= |s| && Blank(s[..|s| - |TrimLeft(s)|])
  {
    if s != "" && IsSpace(s[0]) {
      TrimLeftCuts(s[1..]);
      assert s[..|s| - |TrimLeft(s)|] == [s[0]] + s[1..][..|s| - 1 - |TrimLeft(s)|];
    }
  }

  lemma TrimmedIsFixed(s: string)
    requires Trimmed(s)
    ensures TrimSpace(s) == s
  {
  }

  // ---------------------------------------------------------------------------------------------
  // Cutting and splitting
  // ---------------------------------------------------------------------------------------------

  /** strings.Cut with a one-character separator: where it is, or the length if it is nowhere. */
  function IndexOf(s: string, c: char): (i: nat)
    ensures i <= |s| && c !in s[..i] && (i < |s| ==> s[i] == c)
  {
    if s == "" || s[0] == c then 0
    else
      var j := IndexOf(s[1..], c);
      assert s[..1 + j] == [s[0]] + s[1..][..j];
      1 + j
  }

  lemma IndexNowhere(s: string, c: char)
    ensures IndexOf(s, c) == |s| <==> c !in s
  {
    if c in s {
      var i :| 0 <= i < |s| && s[i] == c;
    }
  }

  lemma {:induction false} IndexAfter(a: string, c: char, b: string)
    requires c !in a
    ensures IndexOf(a + [c] + b, c) == |a|
  {
    if a != "" {
      assert (a + [c] + b)[1..] == a[1..] + [c] + b;
      IndexAfter(a[1..], c, b);
    }
  }

  lemma {:induction false} IndexPast(a: string, c: char, b: string)
    requires c !in a
    ensures IndexOf(a + b, c) == |a| + IndexOf(b, c)
  {
    if a == "" {
      assert a + b == b;
    } else {
      assert (a + b)[1..] == a[1..] + b;
      IndexPast(a[1..], c, b);
    }
  }

  function TrimPrefix(s: string, prefix: string): (r: string)
    ensures prefix <= s ==> s == prefix + r
    ensures !(prefix <= s) ==> r == s
  {
    if prefix <= s then s[|prefix|..] else s
  }

  /** strings.ToLower on ASCII letters; other characters are kept. */
  function ToLower(s: string): (r: string)
    ensures |r| == |s|
    ensures forall i :: 0 <= i < |s| ==>
              if 'A' <= s[i] <= 'Z' then r[i] as int == s[i] as int + 32 else r[i] == s[i]
  {
    seq(|s|, i requires 0 <= i < |s| => if 'A' <= s[i] <= 'Z' then s[i] - 'A' + 'a' else s[i])
  }

  /** strings.Split with the separator `__`: from the left, never overlapping, never empty. */
  function SplitDouble(s: string): (parts: seq<string>)
    ensures parts != []
  {
    SplitDoubleFrom("", s)
  }

  function SplitDoubleFrom(word: string, s: string): (parts: seq<string>)
    ensures parts != []
    decreases |s|
  {
    if s == "" then [word]
    else if "__" <= s then [word] + SplitDoubleFrom("", s[2..])
    else SplitDoubleFrom(word + [s[0]], s[1..])
  }

  /** strings.Join with the separator `__`. */
  function JoinDouble(parts: seq<string>): string
    requires parts != []
  {
    if |parts| == 1 then parts[0] else parts[0] + "__" + JoinDouble(parts[1..])
  }

  predicate NoDouble(s: string) {
    forall i :: 0 <= i < |s| - 1 ==> s[i] != '_' || s[i + 1] != '_'
  }

  predicate EndsIn(s: string, c: char) {
    s != "" && s[|s| - 1] == c
  }

  /** No part holds the separator, and none but the last ends in half of one. */
  predicate Separable(parts: seq<string>) {
    && (forall i :: 0 <= i < |parts| ==> NoDouble(parts[i]))
    && (forall i :: 0 <= i < |parts| - 1 ==> !EndsIn(parts[i], '_'))
  }

  /** Splitting only ever gives such parts. */
  lemma {:induction false} SplitSeparable(word: string, s: string)
    requires NoDouble(word) && !(EndsIn(word, '_') && s != "" && s[0] == '_')
    ensures Separable(SplitDoubleFrom(word, s))
    decreases |s|
  {
    if s != "" && "__" <= s {
      SplitSeparable("", s[2..]);
    } else if s != "" {
      SplitSeparable(word + [s[0]], s[1..]);
    }
  }

  lemma SeparableHead(parts: seq<string>, word: string, c: char, head: string)
    requires parts != [] && parts[0] == [c] + head && Separable([word + parts[0]] + parts[1..])
    ensures c == '_' && JoinDouble(parts)[1..] != "" ==> JoinDouble(parts)[1] != '_'
  {
    var whole := word + parts[0];
    var all := [whole] + parts[1..];
    assert NoDouble(all[0]) && (|all| > 1 ==> !EndsIn(all[0], '_'));
    if head != "" {
      assert whole[|word|] == c && whole[|word| + 1] == head[0];
      assert JoinDouble(parts)[1] == head[0];
    }
  }

  lemma {:induction false} SplitJoined(word: string, parts: seq<string>)
    requires parts != [] && Separable([word + parts[0]] + parts[1..])
    ensures SplitDoubleFrom(word, JoinDouble(parts)) == [word + parts[0]] + parts[1..]
    decreases |JoinDouble(parts)|
  {
    var s := JoinDouble(parts);
    if parts[0] != "" {
      var c, head := parts[0][0], parts[0][1..];
      SeparableHead(parts, word, c, head);
      var next := [head] + parts[1..];
      assert next[1..] == parts[1..];
      assert s[0] == c && s[1..] == JoinDouble(next);
      assert word + parts[0] == word + [c] + head;
      SplitJoined(word + [c], next);
    } else if |parts| > 1 {
      assert s[2..] == JoinDouble(parts[1..]);
      var all := [word] + parts[1..];
      assert all[0] == word + parts[0];
      assert Separable(parts[1..]) by {
        forall i | 0 <= i < |parts| - 1 ensures NoDouble(parts[1..][i]) { assert NoDouble(all[i + 1]); }
        forall i | 0 <= i < |parts| - 2 ensures !EndsIn(parts[1..][i], '_') { assert !EndsIn(all[i + 1], '_'); }
      }
      assert "" + parts[1] == parts[1];
      assert parts[1..] == ["" + parts[1]] + parts[1..][1..];
      SplitJoined("", parts[1..]);
      assert word + parts[0] == word;
    } else {
      assert word + parts[0] == word;
    }
  }

  /** Joining and splitting again gives the parts back exactly when they are separable. */
  lemma JoinThenSplit(parts: seq<string>)
    requires parts != []
    ensures SplitDouble(JoinDouble(parts)) == parts <==> Separable(parts)
  {
    SplitSeparable("", JoinDouble(parts));
    if Separable(parts) {
      assert "" + parts[0] == parts[0];
      assert parts == ["" + parts[0]] + parts[1..];
      SplitJoined("", parts);
    }
  }

  /** Splitting loses nothing but the separators. */
  lemma {:induction false} SplitThenJoin(word: string, s: string)
    ensures JoinDouble(SplitDoubleFrom(word, s)) == word + s
    decreases |s|
  {
    if s == "" {
    } else if "__" <= s {
      SplitThenJoin("", s[2..]);
      assert s == "__" + s[2..] && "" + s[2..] == s[2..];
      assert ([word] + SplitDoubleFrom("", s[2..]))[1..] == SplitDoubleFrom("", s[2..]);
    } else {
      SplitThenJoin(word + [s[0]], s[1..]);
      assert word + [s[0]] + s[1..] == word + s;
    }
  }

  /** Splitting makes no characters up, and joining none but the separator. */
  lemma {:induction false} SplitChars(word: string, s: string, p: string, c: char)
    requires p in SplitDoubleFrom(word, s) && c in p
    ensures c in word || c in s
    decreases |s|
  {
    if s != "" && "__" <= s {
      if p != word {
        SplitChars("", s[2..], p, c);
      }
    } else if s != "" {
      SplitChars(word + [s[0]], s[1..], p, c);
    }
  }

  lemma {:induction false} JoinChars(parts: seq<string>, c: char)
    requires parts != [] && c in JoinDouble(parts) && c != '_'
    ensures exists p :: p in parts && c in p
  {
    if |parts| > 1 && c !in parts[0] {
      JoinChars(parts[1..], c);
      var p :| p in parts[1..] && c in p;
      assert p in parts;
    } else {
      assert parts[0] in parts;
    }
  }
}
