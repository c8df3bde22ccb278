/** `state_list` of tool_socket.py: a caller's prefix is escaped by three chained
    replaces and handed to SQL as `key LIKE ? ESCAPE '\'` with a `%` behind it. */
module LikeEscape {
  import opened Common

  // ---------------------------------------------------------------------------
  // LIKE
  // ---------------------------------------------------------------------------

  /** SQLite folds the case of ASCII letters, and of those only. */
  function Lower(c: char): char {
    if 'A' <= c <= 'Z' then c + 32 as char else c
  }

  function Fold(s: string): (folded: string)
    ensures |folded| == |s| && forall i :: 0 <= i < |s| ==> folded[i] == Lower(s[i])
  {
    if s == "" then "" else [Lower(s[0])] + Fold(s[1..])
  }

  /** `text LIKE pattern ESCAPE '\'`. */
  predicate Like(pattern: string, text: string)
    decreases |pattern| + |text|
  {
    if pattern == "" then text == ""
    else if pattern[0] == '\\' then
      |pattern| > 1 && text != "" && Lower(pattern[1]) == Lower(text[0]) && Like(pattern[2..], text[1..])
    else if pattern[0] == '%' then
      Like(pattern[1..], text) || (text != "" && Like(pattern, text[1..]))
    else if pattern[0] == '_' then
      text != "" && Like(pattern[1..], text[1..])
    else
      text != "" && Lower(pattern[0]) == Lower(text[0]) && Like(pattern[1..], text[1..])
  }

  // ---------------------------------------------------------------------------
  // Escaping
  // ---------------------------------------------------------------------------

  /** The three chained replaces. */
  function Escaped(prefix: string): string {
    ReplaceAll(ReplaceAll(ReplaceAll(prefix, "\\", "\\\\"), "%", "\\%"), "_", "\\_")
  }

  predicate Special(c: char) {
    c == '\\' || c == '%' || c == '_'
  }

  /** One pass: a backslash before every special character. */
  function EscapedOnce(prefix: string): string {
    if prefix == "" then ""
    else (if Special(prefix[0]) then ['\\', prefix[0]] else [prefix[0]]) + EscapedOnce(prefix[1..])
  }

  lemma StartsWith(s: string, c: char)
    requires s != ""
    ensures [c] <= s <==> s[0] == c
  {
    assert s[0] == c ==> s[..1] == [c];
  }

  /** Replacing a single character works piece by piece. */
  lemma {:induction false} ReplaceOfConcat(s: string, t: string, c: char, to: string)
    ensures ReplaceAll(s + t, [c], to) == ReplaceAll(s, [c], to) + ReplaceAll(t, [c], to)
  {
    if s == "" {
      assert s + t == t;
    } else {
      assert (s + t)[1..] == s[1..] + t;
      ReplaceOfConcat(s[1..], t, c, to);
      StartsWith(s + t, c);
      StartsWith(s, c);
    }
  }

  lemma ReplaceInOne(d: char, c: char, to: string)
    ensures ReplaceAll([d], [c], to) == if d == c then to else [d]
  {
    StartsWith([d], c);
    assert [d][1..] == "";
    assert ReplaceAll("", [c], to) == "";
  }

  lemma ReplaceInPair(d: char, e: char, c: char, to: string)
    ensures ReplaceAll([d, e], [c], to) == (if d == c then to else [d]) + (if e == c then to else [e])
  {
    assert [d, e] == [d] + [e];
    ReplaceOfConcat([d], [e], c, to);
    ReplaceInOne(d, c, to);
    ReplaceInOne(e, c, to);
  }

  lemma EscapedOfOne(c: char)
    ensures Escaped([c]) == if Special(c) then ['\\', c] else [c]
  {
    ReplaceInOne(c, '\\', "\\\\");
    if c == '\\' {
      ReplaceInPair('\\', '\\', '%', "\\%");
      ReplaceInPair('\\', '\\', '_', "\\_");
    } else {
      ReplaceInOne(c, '%', "\\%");
      if c == '%' {
        ReplaceInPair('\\', '%', '_', "\\_");
      } else {
        ReplaceInOne(c, '_', "\\_");
      }
    }
  }

  lemma EscapedOfConcat(s: string, t: string)
    ensures Escaped(s + t) == Escaped(s) + Escaped(t)
  {
    ReplaceOfConcat(s, t, '\\', "\\\\");
    var s1, t1 := ReplaceAll(s, "\\", "\\\\"), ReplaceAll(t, "\\", "\\\\");
    ReplaceOfConcat(s1, t1, '%', "\\%");
    ReplaceOfConcat(ReplaceAll(s1, "%", "\\%"), ReplaceAll(t1, "%", "\\%"), '_', "\\_");
  }

  /** The chained replaces do not trip over each other's backslashes: together they
      are the single pass. */
  lemma {:induction false} ChainIsSinglePass(prefix: string)
    ensures Escaped(prefix) == EscapedOnce(prefix)
  {
    if prefix != "" {
      assert prefix == [prefix[0]] + prefix[1..];
      EscapedOfConcat([prefix[0]], prefix[1..]);
      EscapedOfOne(prefix[0]);
      ChainIsSinglePass(prefix[1..]);
    }
  }

  // ---------------------------------------------------------------------------
  // What the query finds
  // ---------------------------------------------------------------------------

  lemma {:induction false} PercentMatchesAnything(text: string)
    ensures Like("%", text)
  {
    assert "%"[1..] == "";
    if text != "" {
      PercentMatchesAnything(text[1..]);
    }
  }

  /** The pattern accepts exactly the keys that begin with the prefix, up to the
      case of ASCII letters, whatever wildcards the prefix contains. */
  lemma {:induction false} PatternIsPrefix(prefix: string, key: string)
    ensures Like(Escaped(prefix) + "%", key) <==> Fold(prefix) <= Fold(key)
  {
    ChainIsSinglePass(prefix);
    if prefix == "" {
      assert Escaped(prefix) + "%" == "%";
      PercentMatchesAnything(key);
    } else {
      var c, rest := prefix[0], prefix[1..];
      ChainIsSinglePass(rest);
      var pattern, tail := Escaped(prefix) + "%", Escaped(rest) + "%";
      if key != "" {
        PatternIsPrefix(rest, key[1..]);
        assert Fold(prefix) <= Fold(key) <==> Lower(c) == Lower(key[0]) && Fold(rest) <= Fold(key[1..]);
      }
      if Special(c) {
        assert pattern == ['\\', c] + tail && pattern[2..] == tail;
      } else {
        assert pattern == [c] + tail && pattern[1..] == tail;
      }
    }
  }

  predicate IsLetter(c: char) {
    'A' <= c <= 'Z' || 'a' <= c <= 'z'
  }

  predicate HasLetter(s: string) {
    exists i :: 0 <= i < |s| && IsLetter(s[i])
  }

  /** The other case of an ASCII letter. */
  function Swapped(c: char): char
    requires IsLetter(c)
  {
    if 'A' <= c <= 'Z' then c + 32 as char else c - 32 as char
  }

  ghost predicate IsExactPrefixSearch(prefix: string) {
    forall key :: Like(Escaped(prefix) + "%", key) <==> prefix <= key
  }

  /** The comment in the source promises a literal match. That holds for every key
      exactly when the prefix has no ASCII letter: otherwise LIKE also accepts the
      prefix written in the other case. */
  lemma LiteralIffNoLetter(prefix: string)
    ensures IsExactPrefixSearch(prefix) <==> !HasLetter(prefix)
  {
    if HasLetter(prefix) {
      var i :| 0 <= i < |prefix| && IsLetter(prefix[i]);
      OtherCaseIsAccepted(prefix, i);
    } else {
      forall key ensures Like(Escaped(prefix) + "%", key) <==> prefix <= key {
        PatternIsPrefix(prefix, key);
        FoldOfNoLetter(prefix, key);
      }
    }
  }

  lemma OtherCaseIsAccepted(prefix: string, i: nat)
    requires i < |prefix| && IsLetter(prefix[i])
    ensures var key := prefix[i := Swapped(prefix[i])]; Like(Escaped(prefix) + "%", key) && !(prefix <= key)
  {
    var key := prefix[i := Swapped(prefix[i])];
    PatternIsPrefix(prefix, key);
    assert Fold(prefix) == Fold(key);
    assert key[i] != prefix[i];
  }

  lemma {:induction false} FoldOfNoLetter(prefix: string, key: string)
    requires !HasLetter(prefix)
    ensures Fold(prefix) <= Fold(key) <==> prefix <= key
  {
    assert forall i :: 0 <= i < |prefix| ==> !IsLetter(prefix[i]);
    if |prefix| <= |key| {
      forall i | 0 <= i < |prefix| ensures Fold(prefix)[i] == Fold(key)[i] <==> prefix[i] == key[i] {
      }
    }
  }

  datatype KeyRow = KeyRow(tool: string, key: string)

  /** The keys `state_list` answers; `rows` is the table in key order. */
  function StateList(rows: seq<KeyRow>, tool: string, prefix: Option<string>): seq<KeyRow> {
    if prefix.Some? && prefix.value != "" then
      Filter(rows, (r: KeyRow) => r.tool == tool && Like(Escaped(prefix.value) + "%", r.key))
    else
      Filter(rows, (r: KeyRow) => r.tool == tool)
  }

  /** A tool sees its own keys that begin with the prefix, and no others. Leaving
      the prefix out means the same as the empty prefix. */
  lemma StateListIsByPrefix(rows: seq<KeyRow>, tool: string, prefix: Option<string>, row: KeyRow)
    ensures row in StateList(rows, tool, prefix)
      <==> row in rows && row.tool == tool && Fold(if prefix.Some? then prefix.value else "") <= Fold(row.key)
  {
    if prefix.Some? && prefix.value != "" {
      FilterMember(rows, (r: KeyRow) => r.tool == tool && Like(Escaped(prefix.value) + "%", r.key), row);
      PatternIsPrefix(prefix.value, row.key);
    } else {
      FilterMember(rows, (r: KeyRow) => r.tool == tool, row);
    }
  }
}
