/**
 * `snakefy`: CamelCase to snake_case by three regular-expression
 * substitutions and a final `lower()`. Each substitution scans left to
 * right, tries a match at every position and resumes after a match, as
 * `re.sub` does; the character classes are ASCII.
 */
module StringUtils {
  import opened Text

  /** Length of the run of lower-case letters that starts `s` (the greedy `[a-z]+`). */
  function LowerRun(s: string): (n: nat)
    ensures n <= |s|
    ensures forall i :: 0 <= i < n ==> IsLower(s[i])
    ensures n < |s| ==> !IsLower(s[n])
  {
    if |s| > 0 && IsLower(s[0]) then 1 + LowerRun(s[1..]) else 0
  }

  /** `re.sub("(.)([A-Z][a-z]+)", r"\1_\2", s)`: `.` matches any character but a newline. */
  function SplitWords(s: string): string
    decreases |s|
  {
    if |s| >= 3 && s[0] != '\n' && IsUpper(s[1]) && IsLower(s[2]) then
      var j := 2 + LowerRun(s[2..]);
      [s[0]] + "_" + s[1..j] + SplitWords(s[j..])
    else if |s| == 0 then ""
    else [s[0]] + SplitWords(s[1..])
  }

  /** `re.sub("__([A-Z])", r"_\1", s)`. */
  function MergeUnderscores(s: string): string
    decreases |s|
  {
    if |s| >= 3 && s[0] == '_' && s[1] == '_' && IsUpper(s[2]) then
      "_" + [s[2]] + MergeUnderscores(s[3..])
    else if |s| == 0 then ""
    else [s[0]] + MergeUnderscores(s[1..])
  }

  /** `re.sub("([a-z0-9])([A-Z])", r"\1_\2", s)`. */
  function SplitCamel(s: string): string
    decreases |s|
  {
    if |s| >= 2 && (IsLower(s[0]) || IsDigit(s[0])) && IsUpper(s[1]) then
      [s[0], '_', s[1]] + SplitCamel(s[2..])
    else if |s| == 0 then ""
    else [s[0]] + SplitCamel(s[1..])
  }

  /** `snakefy(name)`. */
  function Snakefy(name: string): (r: string)
    ensures NoUpper(r)
  {
    LowerNoUpper(SplitCamel(MergeUnderscores(SplitWords(name))));
    Lower(SplitCamel(MergeUnderscores(SplitWords(name))))
  }

  // ---- inputs without capitals -----------------------------------------------

  lemma {:induction false} SplitWordsNoUpper(s: string)
    requires NoUpper(s)
    ensures SplitWords(s) == s
    decreases |s|
  {
    if |s| > 0 {
      assert NoUpper(s[1..]) by {
        forall i | 0 <= i < |s[1..]| ensures !IsUpper(s[1..][i]) {
          assert s[1..][i] == s[i + 1];
        }
      }
      SplitWordsNoUpper(s[1..]);
      assert [s[0]] + s[1..] == s;
    }
  }

  lemma {:induction false} MergeUnderscoresNoUpper(s: string)
    requires NoUpper(s)
    ensures MergeUnderscores(s) == s
    decreases |s|
  {
    if |s| > 0 {
      assert NoUpper(s[1..]) by {
        forall i | 0 <= i < |s[1..]| ensures !IsUpper(s[1..][i]) {
          assert s[1..][i] == s[i + 1];
        }
      }
      MergeUnderscoresNoUpper(s[1..]);
      assert [s[0]] + s[1..] == s;
    }
  }

  lemma {:induction false} SplitCamelNoUpper(s: string)
    requires NoUpper(s)
    ensures SplitCamel(s) == s
    decreases |s|
  {
    if |s| > 0 {
      assert NoUpper(s[1..]) by {
        forall i | 0 <= i < |s[1..]| ensures !IsUpper(s[1..][i]) {
          assert s[1..][i] == s[i + 1];
        }
      }
      SplitCamelNoUpper(s[1..]);
      assert [s[0]] + s[1..] == s;
    }
  }

  /** Every pattern needs a capital, so a name without one comes back unchanged. */
  lemma SnakefyNoUpper(name: string)
    requires NoUpper(name)
    ensures Snakefy(name) == name
  {
    SplitWordsNoUpper(name);
    MergeUnderscoresNoUpper(name);
    SplitCamelNoUpper(name);
    LowerNoUpper(name);
  }

  /** `snakefy` is idempotent. */
  lemma SnakefyIdempotent(name: string)
    ensures Snakefy(Snakefy(name)) == Snakefy(name)
  {
    SnakefyNoUpper(Snakefy(name));
  }

  // ---- only underscores change -----------------------------------------------

  lemma {:induction false} SplitWordsUnderscoresOnly(s: string)
    ensures RemoveChar(SplitWords(s), '_') == RemoveChar(s, '_')
    decreases |s|
  {
    if |s| >= 3 && s[0] != '\n' && IsUpper(s[1]) && IsLower(s[2]) {
      var j := 2 + LowerRun(s[2..]);
      var word := s[1..j];
      SplitWordsUnderscoresOnly(s[j..]);
      assert SplitWords(s) == [s[0]] + "_" + word + SplitWords(s[j..]);
      RemoveCharAppend([s[0]] + "_" + word, SplitWords(s[j..]), '_');
      DropInserted([s[0]], word, '_');
      assert s == [s[0]] + word + s[j..];
      RemoveCharAppend([s[0]] + word, s[j..], '_');
    } else if |s| > 0 {
      SplitWordsUnderscoresOnly(s[1..]);
      RemoveCharAppend([s[0]], SplitWords(s[1..]), '_');
    }
  }

  /** An inserted `c` disappears again when `c` is taken out. */
  lemma DropInserted(a: string, b: string, c: char)
    ensures RemoveChar(a + [c] + b, c) == RemoveChar(a + b, c)
  {
    RemoveCharAppend(a + [c], b, c);
    RemoveCharAppend(a, [c], c);
    RemoveCharAppend(a, b, c);
  }

  lemma {:induction false} MergeUnderscoresUnderscoresOnly(s: string)
    ensures RemoveChar(MergeUnderscores(s), '_') == RemoveChar(s, '_')
    decreases |s|
  {
    if |s| >= 3 && s[0] == '_' && s[1] == '_' && IsUpper(s[2]) {
      MergeUnderscoresUnderscoresOnly(s[3..]);
      RemoveCharAppend("_" + [s[2]], MergeUnderscores(s[3..]), '_');
      RemoveCharAppend("_", [s[2]], '_');
      assert s == "__" + [s[2]] + s[3..];
      RemoveCharAppend("__" + [s[2]], s[3..], '_');
      RemoveCharAppend("__", [s[2]], '_');
    } else if |s| > 0 {
      MergeUnderscoresUnderscoresOnly(s[1..]);
      RemoveCharAppend([s[0]], MergeUnderscores(s[1..]), '_');
    }
  }

  lemma {:induction false} SplitCamelUnderscoresOnly(s: string)
    ensures RemoveChar(SplitCamel(s), '_') == RemoveChar(s, '_')
    decreases |s|
  {
    if |s| >= 2 && (IsLower(s[0]) || IsDigit(s[0])) && IsUpper(s[1]) {
      SplitCamelUnderscoresOnly(s[2..]);
      RemoveCharAppend([s[0], '_', s[1]], SplitCamel(s[2..]), '_');
      assert s == [s[0], s[1]] + s[2..];
      RemoveCharAppend([s[0], s[1]], s[2..], '_');
      assert RemoveChar([s[0], '_', s[1]], '_') == [s[0], s[1]];
    } else if |s| > 0 {
      SplitCamelUnderscoresOnly(s[1..]);
      RemoveCharAppend([s[0]], SplitCamel(s[1..]), '_');
    }
  }

  /** Lower-casing does not create or remove underscores. */
  lemma {:induction false} LowerRemoveUnderscores(s: string)
    ensures RemoveChar(Lower(s), '_') == Lower(RemoveChar(s, '_'))
  {
    if |s| > 0 {
      LowerRemoveUnderscores(s[1..]);
      assert Lower(s) == [ToLower(s[0])] + Lower(s[1..]);
      RemoveCharAppend([ToLower(s[0])], Lower(s[1..]), '_');
      var h := if s[0] == '_' then "" else [s[0]];
      LowerAppend(h, RemoveChar(s[1..], '_'));
    }
  }

  lemma LowerAppend(a: string, b: string)
    ensures Lower(a + b) == Lower(a) + Lower(b)
  {
  }

  /**
   * `snakefy` only inserts and removes underscores: with the underscores
   * taken out, the result is the lower-cased name with its underscores
   * taken out.
   */
  lemma SnakefyUnderscoresOnly(name: string)
    ensures RemoveChar(Snakefy(name), '_') == RemoveChar(Lower(name), '_')
  {
    var p1 := SplitWords(name);
    var p2 := MergeUnderscores(p1);
    var p3 := SplitCamel(p2);
    SplitWordsUnderscoresOnly(name);
    MergeUnderscoresUnderscoresOnly(p1);
    SplitCamelUnderscoresOnly(p2);
    LowerRemoveUnderscores(p3);
    LowerRemoveUnderscores(name);
  }

  // ---- the third pass separates every camel boundary ---------------------------

  /** No lower-case letter or digit stands directly before a capital. */
  predicate NoCamelBoundary(s: string) {
    forall i :: 0 <= i < |s| - 1 ==> !((IsLower(s[i]) || IsDigit(s[i])) && IsUpper(s[i + 1]))
  }

  lemma {:induction false} SplitCamelHead(s: string)
    requires |s| > 0
    ensures |SplitCamel(s)| > 0 && SplitCamel(s)[0] == s[0]
  {
  }

  /** After the third pass, every lower-case letter or digit followed by a capital is split by `_`. */
  lemma {:induction false} SplitCamelSeparates(s: string)
    ensures NoCamelBoundary(SplitCamel(s))
    decreases |s|
  {
    if |s| >= 2 && (IsLower(s[0]) || IsDigit(s[0])) && IsUpper(s[1]) {
      var rest := SplitCamel(s[2..]);
      SplitCamelSeparates(s[2..]);
      var r := [s[0], '_', s[1]] + rest;
      forall i | 0 <= i < |r| - 1 ensures !((IsLower(r[i]) || IsDigit(r[i])) && IsUpper(r[i + 1])) {
        if i >= 3 {
          assert r[i] == rest[i - 3] && r[i + 1] == rest[i - 2];
        }
      }
    } else if |s| > 0 {
      var rest := SplitCamel(s[1..]);
      SplitCamelSeparates(s[1..]);
      if |s| > 1 {
        SplitCamelHead(s[1..]);
      }
      var r := [s[0]] + rest;
      forall i | 0 <= i < |r| - 1 ensures !((IsLower(r[i]) || IsDigit(r[i])) && IsUpper(r[i + 1])) {
        if i >= 1 {
          assert r[i] == rest[i - 1] && r[i + 1] == rest[i];
        }
      }
    }
  }

  // ---- examples ----------------------------------------------------------------

  // ---- what each pass leaves alone, and the word split -------------------------

  predicate HasDoubleUnderscore(s: string) {
    exists i :: 0 <= i < |s| - 1 && s[i] == '_' && s[i + 1] == '_'
  }

  /** The second pass needs "__": a string without it is left as it is. */
  lemma {:induction false} MergeUnderscoresWithoutDouble(s: string)
    requires !HasDoubleUnderscore(s)
    ensures MergeUnderscores(s) == s
    decreases |s|
  {
    if |s| > 0 {
      assert !HasDoubleUnderscore(s[1..]) by {
        forall i | 0 <= i < |s[1..]| - 1 ensures !(s[1..][i] == '_' && s[1..][i + 1] == '_') {
          assert s[1..][i] == s[i + 1] && s[1..][i + 1] == s[i + 2];
        }
      }
      MergeUnderscoresWithoutDouble(s[1..]);
      assert [s[0]] + s[1..] == s;
    }
  }

  /** The third pass changes nothing where there is no camel boundary. */
  lemma {:induction false} SplitCamelWithoutBoundary(s: string)
    requires NoCamelBoundary(s)
    ensures SplitCamel(s) == s
    decreases |s|
  {
    if |s| > 0 {
      assert NoCamelBoundary(s[1..]) by {
        forall i | 0 <= i < |s[1..]| - 1
          ensures !((IsLower(s[1..][i]) || IsDigit(s[1..][i])) && IsUpper(s[1..][i + 1]))
        {
          assert s[1..][i] == s[i + 1] && s[1..][i + 1] == s[i + 2];
        }
      }
      SplitCamelWithoutBoundary(s[1..]);
      assert [s[0]] + s[1..] == s;
    }
  }

  /** A match of the first pattern could start at `k` of `t`, newline aside. */
  predicate WordStartAt(t: string, k: nat) {
    k + 2 < |t| && IsUpper(t[k + 1]) && IsLower(t[k + 2])
  }

  /** No position inside `x` starts a capitalised word of `x + [u]`. */
  predicate NoWordStartWithin(x: string, u: char) {
    forall k :: 0 <= k < |x| - 1 ==> !WordStartAt(x + [u], k)
  }

  lemma LowerRunAll(w: string)
    requires forall i :: 0 <= i < |w| ==> IsLower(w[i])
    ensures LowerRun(w) == |w|
  {
  }

  /**
   * The first pass puts `_` before a final capitalised word `u + w`, as long
   * as no capitalised word starts earlier.
   */
  lemma {:induction false} SplitWordsFinalWord(x: string, u: char, w: string)
    requires |x| > 0 && x[|x| - 1] != '\n'
    requires IsUpper(u) && |w| > 0 && forall i :: 0 <= i < |w| ==> IsLower(w[i])
    requires NoWordStartWithin(x, u)
    ensures SplitWords(x + [u] + w) == x + "_" + [u] + w
    decreases |x|
  {
    var s := x + [u] + w;
    if |x| == 1 {
      assert s[1] == u && s[2] == w[0] && s[2..] == w;
      LowerRunAll(w);
      assert s[1..2 + |w|] == [u] + w && s[2 + |w|..] == "";
    } else {
      assert !WordStartAt(x + [u], 0);
      assert s[1] == x[1] && s[2] == (x + [u])[2];
      var y := x[1..];
      assert NoWordStartWithin(y, u) by {
        forall k | 0 <= k < |y| - 1 ensures !WordStartAt(y + [u], k) {
          assert !WordStartAt(x + [u], k + 1);
          assert (y + [u])[k + 1] == (x + [u])[k + 2] && (y + [u])[k + 2] == (x + [u])[k + 3];
        }
      }
      SplitWordsFinalWord(y, u, w);
      assert s[1..] == y + [u] + w;
      assert [x[0]] + (y + "_" + [u] + w) == x + "_" + [u] + w;
    }
  }

  /** A run of more than one capital followed by a lower-case word: `HTTPResponse` and the like. */
  lemma AcronymThenWord(p: string, u: char, w: string)
    requires |p| > 0 && forall i :: 0 <= i < |p| ==> IsUpper(p[i])
    requires IsUpper(u) && |w| > 0 && forall i :: 0 <= i < |w| ==> IsLower(w[i])
    ensures SplitWords(p + [u] + w) == p + "_" + [u] + w
  {
    assert NoWordStartWithin(p, u) by {
      forall k | 0 <= k < |p| - 1 ensures !WordStartAt(p + [u], k) {
        assert IsUpper((p + [u])[k + 2]);
      }
    }
    SplitWordsFinalWord(p, u, w);
  }

  // Each step takes the strings as parameters so that the solver does not
  // evaluate the passes on the literals by unfolding.

  lemma DonutShopWordSplit(name: string)
    requires name == "DonutShop"
    ensures SplitWords(name) == "Donut_Shop"
  {
    var x := "Donut";
    assert NoWordStartWithin(x, 'S') by {
      forall k | 0 <= k < |x| - 1 ensures !WordStartAt(x + ['S'], k) {
        assert IsLower(x[k + 1]);
      }
    }
    SplitWordsFinalWord(x, 'S', "hop");
    assert name == x + ['S'] + "hop";
  }

  lemma DonutShopNoDoubleUnderscore(d: string)
    requires d == "Donut_Shop"
    ensures MergeUnderscores(d) == d
  {
    assert !HasDoubleUnderscore(d) by {
      forall i | 0 <= i < |d| - 1 ensures !(d[i] == '_' && d[i + 1] == '_') {
        assert i == 5 || d[i] != '_';
      }
    }
    MergeUnderscoresWithoutDouble(d);
  }

  lemma DonutShopNoCamelBoundary(d: string)
    requires d == "Donut_Shop"
    ensures SplitCamel(d) == d
  {
    assert NoCamelBoundary(d) by {
      forall i | 0 <= i < |d| - 1 ensures !((IsLower(d[i]) || IsDigit(d[i])) && IsUpper(d[i + 1])) {
        assert i + 1 == 6 || !IsUpper(d[i + 1]);
      }
    }
    SplitCamelWithoutBoundary(d);
  }

  lemma DonutShopLowered(d: string)
    requires d == "Donut_Shop"
    ensures Lower(d) == "donut_shop"
  {
    forall i | 0 <= i < |d| ensures Lower(d)[i] == "donut_shop"[i] {
    }
  }

  /** The documented conversion "DonutShop" → "donut_shop". */
  lemma SnakefyDonutShop(name: string)
    requires name == "DonutShop"
    ensures Snakefy(name) == "donut_shop"
  {
    DonutShopWordSplit(name);
    DonutShopNoDoubleUnderscore(SplitWords(name));
    DonutShopNoCamelBoundary(SplitWords(name));
    DonutShopLowered(SplitWords(name));
  }

  lemma HTTPResponseWordSplit(name: string)
    requires name == "HTTPResponse"
    ensures SplitWords(name) == "HTTP_Response"
  {
    AcronymThenWord("HTTP", 'R', "esponse");
    assert name == "HTTP" + ['R'] + "esponse";
  }

  lemma HTTPResponseNoDoubleUnderscore(h: string)
    requires h == "HTTP_Response"
    ensures MergeUnderscores(h) == h
  {
    assert !HasDoubleUnderscore(h) by {
      forall i | 0 <= i < |h| - 1 ensures !(h[i] == '_' && h[i + 1] == '_') {
        assert i == 4 || h[i] != '_';
      }
    }
    MergeUnderscoresWithoutDouble(h);
  }

  lemma HTTPResponseNoCamelBoundary(h: string)
    requires h == "HTTP_Response"
    ensures SplitCamel(h) == h
  {
    assert NoCamelBoundary(h) by {
      forall i | 0 <= i < |h| - 1 ensures !((IsLower(h[i]) || IsDigit(h[i])) && IsUpper(h[i + 1])) {
        assert i < 4 || i + 1 == 5 || !IsUpper(h[i + 1]);
      }
    }
    SplitCamelWithoutBoundary(h);
  }

  lemma HTTPResponseLowered(h: string)
    requires h == "HTTP_Response"
    ensures Lower(h) == "http_response"
  {
    forall i | 0 <= i < |h| ensures Lower(h)[i] == "http_response"[i] {
    }
  }

  /** The documented conversion "HTTPResponse" → "http_response". */
  lemma SnakefyHTTPResponse(name: string)
    requires name == "HTTPResponse"
    ensures Snakefy(name) == "http_response"
  {
    HTTPResponseWordSplit(name);
    HTTPResponseNoDoubleUnderscore(SplitWords(name));
    HTTPResponseNoCamelBoundary(SplitWords(name));
    HTTPResponseLowered(SplitWords(name));
  }
}
