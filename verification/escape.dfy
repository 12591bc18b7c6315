/** Escaping of agent answers before they are sent to the chat
    (app/utils/escape.py). The source runs fifteen `str.replace` passes,
    one per listed character; this module models that loop and proves it
    equal to a single left-to-right pass that puts one backslash in front
    of each listed character, then derives length, round-trip and
    non-idempotence facts from the single pass. */
module Escape {
  import Text

  /** The fifteen characters the source escapes, in the order of its passes.
      `_`, `*`, a backtick and the backslash itself are not among them. */
  const DangerousChars: seq<char> :=
    ['[', ']', '(', ')', '~', '>', '#', '+', '-', '=', '|', '{', '}', '.', '!']

  const Backslash: char := '\\'

  /** Membership in the list, spelled out character by character. */
  predicate IsDangerous(c: char)
  {
    || c == '[' || c == ']' || c == '(' || c == ')' || c == '~'
    || c == '>' || c == '#' || c == '+' || c == '-' || c == '='
    || c == '|' || c == '{' || c == '}' || c == '.' || c == '!'
  }

  lemma DangerousListed(c: char)
    ensures IsDangerous(c) <==> c in DangerousChars
  {
  }

  /** Python `s.replace(target, repl)` for a one-character `target`. */
  function Replace(s: string, target: char, repl: string): (r: string)
    ensures target !in s ==> r == s
    ensures target !in repl ==> target !in r
  {
    if |s| == 0 then ""
    else (if s[0] == target then repl else [s[0]]) + Replace(s[1..], target, repl)
  }

  lemma MulSucc(m: int, k: int)
    ensures (m + 1) * k == m * k + k
  {
  }

  /** Each occurrence of `target` grows or shrinks the text by the
      difference between `repl` and one character. */
  lemma {:induction false} ReplaceLength(s: string, target: char, repl: string)
    ensures |Replace(s, target, repl)| == |s| + multiset(s)[target] * (|repl| - 1)
  {
    if |s| > 0 {
      var m, k := multiset(s[1..])[target], |repl| - 1;
      ReplaceLength(s[1..], target, repl);
      assert s == [s[0]] + s[1..];
      if s[0] == target {
        assert multiset(s)[target] == m + 1;
        MulSucc(m, k);
      } else {
        assert multiset(s)[target] == m;
      }
    }
  }

  /** One left-to-right pass that puts a backslash in front of every
      character listed in `marked` and copies every other character. */
  function EscapeWith(s: string, marked: seq<char>): string
  {
    if |s| == 0 then ""
    else (if s[0] in marked then [Backslash, s[0]] else [s[0]]) + EscapeWith(s[1..], marked)
  }

  /** The single-pass reference: every dangerous character gets one
      backslash in front of it, every other character is copied. */
  function Escaped(s: string): string
  {
    if |s| == 0 then ""
    else (if IsDangerous(s[0]) then [Backslash, s[0]] else [s[0]]) + Escaped(s[1..])
  }

  /** Escaping exactly the listed characters is the single-pass reference. */
  lemma {:induction false} EscapeWithListed(s: string)
    ensures EscapeWith(s, DangerousChars) == Escaped(s)
  {
    if |s| > 0 {
      DangerousListed(s[0]);
      EscapeWithListed(s[1..]);
    }
  }

  /** Number of dangerous characters in `s`. */
  function CountDangerous(s: string): nat
  {
    if |s| == 0 then 0 else (if IsDangerous(s[0]) then 1 else 0) + CountDangerous(s[1..])
  }

  /** Left-to-right inverse: a backslash is dropped only when the next
      character is a dangerous one; everything else is copied. */
  function Unescape(s: string): string
  {
    if |s| == 0 then ""
    else if |s| >= 2 && s[0] == Backslash && IsDangerous(s[1]) then [s[1]] + Unescape(s[2..])
    else [s[0]] + Unescape(s[1..])
  }

  /** `escape_markdown`: the source's loop of fifteen `replace` passes, one
      per dangerous character in list order. Its result is the single-pass
      escaping. */
  method EscapeMarkdown(text: string) returns (r: string)
    ensures r == Escaped(text)
  {
    r := text;
    EscapeWithNothing(text);
    for k := 0 to |DangerousChars|
      invariant r == EscapeWith(text, DangerousChars[..k])
    {
      var ch := DangerousChars[k];
      assert ch !in DangerousChars[..k];
      ReplaceStep(text, DangerousChars[..k], ch);
      r := Replace(r, ch, [Backslash, ch]);
      assert DangerousChars[..k + 1] == DangerousChars[..k] + [ch];
    }
    assert DangerousChars[..|DangerousChars|] == DangerousChars;
    EscapeWithListed(text);
  }

  /** Before any pass, nothing is escaped. */
  lemma {:induction false} EscapeWithNothing(s: string)
    ensures EscapeWith(s, []) == s
  {
    if |s| > 0 {
      EscapeWithNothing(s[1..]);
      assert s == [s[0]] + s[1..];
    }
  }

  /** One more `replace` pass for a character `d` that no earlier pass
      handled and that is not the backslash only escapes the original
      occurrences of `d`: no earlier pass inserted a `d`. */
  lemma {:induction false} ReplaceStep(s: string, marked: seq<char>, d: char)
    requires d !in marked
    requires d != Backslash
    ensures Replace(EscapeWith(s, marked), d, [Backslash, d]) == EscapeWith(s, marked + [d])
  {
    if |s| > 0 {
      var head := if s[0] in marked then [Backslash, s[0]] else [s[0]];
      var tail := EscapeWith(s[1..], marked);
      ReplaceAppend(head, tail, d, [Backslash, d]);
      ReplaceStep(s[1..], marked, d);
      if s[0] in marked {
        assert Replace(head, d, [Backslash, d]) == head by {
          assert head[1..] == [s[0]];
          assert head[1..][1..] == [];
        }
      }
    }
  }

  lemma {:induction false} ReplaceAppend(a: string, b: string, target: char, repl: string)
    ensures Replace(a + b, target, repl) == Replace(a, target, repl) + Replace(b, target, repl)
  {
    if |a| == 0 {
      assert a + b == b;
    } else {
      assert (a + b)[1..] == a[1..] + b;
      ReplaceAppend(a[1..], b, target, repl);
    }
  }

  lemma {:induction false} EscapedAppend(a: string, b: string)
    ensures Escaped(a + b) == Escaped(a) + Escaped(b)
  {
    if |a| == 0 {
      assert a + b == b;
    } else {
      assert (a + b)[1..] == a[1..] + b;
      EscapedAppend(a[1..], b);
    }
  }

  /** The output grows by exactly one backslash per dangerous character. */
  lemma {:induction false} EscapedLength(s: string)
    ensures |Escaped(s)| == |s| + CountDangerous(s)
  {
    if |s| > 0 {
      EscapedLength(s[1..]);
    }
  }

  /** Escaping never starts its output with a dangerous character: a
      dangerous first input character is preceded by its backslash. */
  lemma EscapedHeadSafe(s: string)
    requires |s| > 0
    ensures |Escaped(s)| > 0 && !IsDangerous(Escaped(s)[0])
  {
  }

  /** Every dangerous character of the output sits right after a backslash. */
  lemma {:induction false} EscapedDangerousPreceded(s: string)
    ensures forall i :: 0 <= i < |Escaped(s)| && IsDangerous(Escaped(s)[i]) ==>
      i > 0 && Escaped(s)[i - 1] == Backslash
  {
    if |s| > 0 {
      EscapedDangerousPreceded(s[1..]);
      var r := Escaped(s);
      var tail := Escaped(s[1..]);
      var h := |r| - |tail|;
      assert r == r[..h] + tail;
      if |tail| > 0 {
        EscapedHeadSafe(s[1..]);
      }
      forall i | 0 <= i < |r| && IsDangerous(r[i])
        ensures i > 0 && r[i - 1] == Backslash
      {
        if i >= h {
          assert r[i] == tail[i - h];
          assert i - h > 0;
          assert r[i - 1] == tail[i - h - 1];
        }
      }
    }
  }

  /** Unescaping the escaped text gives back the original, so no character
      other than the inserted backslashes is altered. */
  lemma {:induction false} UnescapeEscaped(s: string)
    ensures Unescape(Escaped(s)) == s
  {
    if |s| > 0 {
      UnescapeEscaped(s[1..]);
      var tail := Escaped(s[1..]);
      if IsDangerous(s[0]) {
        var r := [Backslash, s[0]] + tail;
        assert r[2..] == tail;
        assert s == [s[0]] + s[1..];
      } else {
        var r := [s[0]] + tail;
        assert r[1..] == tail;
        if |tail| > 0 {
          EscapedHeadSafe(s[1..]);
          assert r[1] == tail[0];
        }
        assert s == [s[0]] + s[1..];
      }
    }
  }

  /** Escaping is injective: different texts never escape to the same text. */
  lemma EscapedInjective(s: string, t: string)
    requires Escaped(s) == Escaped(t)
    ensures s == t
  {
    UnescapeEscaped(s);
    UnescapeEscaped(t);
  }

  /** A text is left unchanged exactly when it holds no dangerous character. */
  lemma EscapedUnchangedIff(s: string)
    ensures Escaped(s) == s <==> CountDangerous(s) == 0
  {
  }

  lemma {:induction false} NoDangerousUnchanged(s: string)
    requires CountDangerous(s) == 0
    ensures Escaped(s) == s
  {
    if |s| > 0 {
      NoDangerousUnchanged(s[1..]);
      assert s == [s[0]] + s[1..];
    }
  }

  /** The count of dangerous characters is the count over the listed ones. */
  lemma {:induction false} CountDangerousZeroIff(s: string)
    ensures CountDangerous(s) == 0 <==> forall i :: 0 <= i < |s| ==> !IsDangerous(s[i])
  {
    if |s| > 0 {
      CountDangerousZeroIff(s[1..]);
      assert forall i :: 1 <= i < |s| ==> s[i] == s[1..][i - 1];
    }
  }

  /** The backslashes inserted are not dangerous, so a second escaping sees
      the same dangerous characters again. */
  lemma {:induction false} CountDangerousEscaped(s: string)
    ensures CountDangerous(Escaped(s)) == CountDangerous(s)
  {
    if |s| > 0 {
      CountDangerousEscaped(s[1..]);
      var head := if IsDangerous(s[0]) then [Backslash, s[0]] else [s[0]];
      CountDangerousAppend(head, Escaped(s[1..]));
      if IsDangerous(s[0]) {
        assert head[1..] == [s[0]];
      }
    }
  }

  lemma {:induction false} CountDangerousAppend(a: string, b: string)
    ensures CountDangerous(a + b) == CountDangerous(a) + CountDangerous(b)
  {
    if |a| == 0 {
      assert a + b == b;
    } else {
      assert (a + b)[1..] == a[1..] + b;
      CountDangerousAppend(a[1..], b);
    }
  }

  /** Not idempotent: a text with a dangerous character changes again when
      escaped a second time. */
  lemma EscapeTwiceDiffers(s: string)
    requires CountDangerous(s) > 0
    ensures Escaped(Escaped(s)) != Escaped(s)
  {
  }

  /** Markup characters pass through: underscores, asterisks, backticks and
      backslashes are not escaped. */
  lemma MarkupKept()
    ensures Escaped("_*`\\") == "_*`\\"
  {
  }

  /** Escaping a run of safe characters followed by one dangerous character. */
  lemma EscapedSegment(a: string, d: char, rest: string)
    requires CountDangerous(a) == 0
    requires IsDangerous(d)
    ensures Escaped(a + [d] + rest) == a + [Backslash, d] + Escaped(rest)
  {
    EscapedAppend(a, [d] + rest);
    NoDangerousUnchanged(a);
    assert a + [d] + rest == a + ([d] + rest);
    assert ([d] + rest)[1..] == rest;
  }

  /** Worked example: the dot is escaped while the underscore is not. */
  lemma EscapedExampleDot()
    ensures Escaped("a_b.c") == "a_b\\.c"
  {
  }

  /** Worked example: parentheses and the hyphen each get one backslash. */
  lemma EscapedExampleBrackets()
    ensures Escaped("(1-2)") == "\\(1\\-2\\)"
  {
  }
}
