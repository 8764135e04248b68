/**
 * `safeJSONParse` (src/App.js): a cell holding single-quoted pseudo-JSON is
 * rewritten into double-quoted text and handed to JSON.parse; every failure
 * becomes `null`. JSON.parse itself is a foreign call and is a parameter here:
 * `parse(t)` is `Some(v)` when JSON.parse(t) returns `v` and `None` when it
 * throws.
 */
module SafeJson {
  import opened JsValues

  /** `s.replace(/'/g, '"')` */
  function SingleToDouble(s: string): string {
    if s == [] then []
    else [if s[0] == '\'' then '"' else s[0]] + SingleToDouble(s[1..])
  }

  /** What the substitution does, character by character. */
  lemma {:induction false} SingleToDoubleAt(s: string)
    ensures |SingleToDouble(s)| == |s|
    ensures forall i :: 0 <= i < |s| ==>
              SingleToDouble(s)[i] == (if s[i] == '\'' then '"' else s[i])
  {
    if s != [] {
      SingleToDoubleAt(s[1..]);
    }
  }

  /** `p1.replace(/"/g, "'")` */
  function DoubleToSingle(s: string): (r: string)
    ensures |r| == |s|
    ensures forall i :: 0 <= i < |s| ==> r[i] == (if s[i] == '"' then '\'' else s[i])
  {
    if s == [] then []
    else [if s[0] == '"' then '\'' else s[0]] + DoubleToSingle(s[1..])
  }

  /** Length of the longest prefix of `s` free of `"`: what `[^"]*` matches greedily. */
  function NonQuoteRun(s: string): (n: nat)
    ensures n <= |s|
    ensures forall i :: 0 <= i < n ==> s[i] != '"'
    ensures n < |s| ==> s[n] == '"'
  {
    if s == [] || s[0] == '"' then 0 else 1 + NonQuoteRun(s[1..])
  }

  /** `s.replace(/"([^"]*)":/g, (match, p1) => `"${p1.replace(/"/g, "'")}":`)`,
      as the regular-expression engine runs it: scanning left to right, a match
      starts at a `"`, its group runs to the next `"`, and that quote must be
      followed by `:`; after a match the scan resumes behind it, otherwise one
      character further on. */
  function KeyPass(s: string): string
    decreases |s|
  {
    if s == [] then []
    else
      var close := 1 + NonQuoteRun(s[1..]);
      if s[0] == '"' && close + 1 < |s| && s[close + 1] == ':' then
        "\"" + DoubleToSingle(s[1..close]) + "\":" + KeyPass(s[close + 2..])
      else
        [s[0]] + KeyPass(s[1..])
  }

  /** The text of src/App.js line 12 that is handed to JSON.parse. */
  function Rewrite(s: string): string {
    KeyPass(SingleToDouble(s))
  }

  lemma DoubleToSingleWithoutQuotes(s: string)
    requires forall i :: 0 <= i < |s| ==> s[i] != '"'
    ensures DoubleToSingle(s) == s
  {
  }

  /** The group a match captures holds no `"`, and the match closes on one. */
  lemma GroupHasNoQuote(s: string, close: nat)
    requires s != [] && close == 1 + NonQuoteRun(s[1..]) && close < |s|
    ensures s[close] == '"'
    ensures DoubleToSingle(s[1..close]) == s[1..close]
  {
    var group := s[1..close];
    assert forall i :: 0 <= i < |group| ==> group[i] == s[1..][i];
    DoubleToSingleWithoutQuotes(group);
  }

  /** A matched text is its opening quote, its group, and the closing `":`. */
  lemma MatchDecomposes(s: string, close: nat)
    requires 1 <= close && close + 1 < |s| && s[0] == '"' && s[close] == '"' && s[close + 1] == ':'
    ensures s == "\"" + s[1..close] + "\":" + s[close + 2..]
  {
    assert s[..close] == "\"" + s[1..close];
    assert s[close..close + 2] == "\":";
    assert s == s[..close] + s[close..close + 2] + s[close + 2..];
  }

  /** The key pass can never change anything: its captured group contains no `"`,
      so the replacement text always equals the matched text. */
  lemma {:induction false} KeyPassIsIdentity(s: string)
    ensures KeyPass(s) == s
    decreases |s|
  {
    if s != [] {
      var close := 1 + NonQuoteRun(s[1..]);
      if s[0] == '"' && close + 1 < |s| && s[close + 1] == ':' {
        var group, rest := s[1..close], s[close + 2..];
        assert KeyPass(s) == "\"" + DoubleToSingle(group) + "\":" + KeyPass(rest);
        GroupHasNoQuote(s, close);
        KeyPassIsIdentity(rest);
        MatchDecomposes(s, close);
      } else {
        assert KeyPass(s) == [s[0]] + KeyPass(s[1..]);
        KeyPassIsIdentity(s[1..]);
        assert s == [s[0]] + s[1..];
      }
    }
  }

  /** The whole rewrite is a character-by-character `'` to `"` substitution:
      same length, every `'` becomes `"`, every other character stays. */
  lemma RewriteIsQuoteSwap(s: string)
    ensures Rewrite(s) == SingleToDouble(s)
    ensures |Rewrite(s)| == |s|
    ensures forall i :: 0 <= i < |s| ==> (s[i] == '\'' ==> Rewrite(s)[i] == '"')
    ensures forall i :: 0 <= i < |s| ==> (s[i] != '\'' ==> Rewrite(s)[i] == s[i])
    ensures forall i :: 0 <= i < |s| ==> Rewrite(s)[i] != '\''
  {
    KeyPassIsIdentity(SingleToDouble(s));
    SingleToDoubleAt(s);
  }

  /** The key pass is also the identity on the rewrite's own output. */
  lemma KeyPassFixesRewrite(s: string)
    ensures KeyPass(Rewrite(s)) == Rewrite(s)
  {
    KeyPassIsIdentity(Rewrite(s));
  }

  /** `safeJSONParse(str)`. A falsy cell gives `null` without a parse; a truthy
      cell that is not a string has no `replace` method, so the call throws
      inside the `try` and also gives `null`; a string is rewritten and parsed,
      and a parse failure gives `null`. */
  function SafeJsonParse(str: Value, parse: string -> Option<Value>): (r: Value)
    ensures !Truthy(str) ==> r == Null
    ensures !str.Str? ==> r == Null
    ensures str.Str? && str.s != "" && parse(SingleToDouble(str.s)).None? ==> r == Null
    ensures str.Str? && str.s != "" && parse(SingleToDouble(str.s)).Some? ==>
              r == parse(SingleToDouble(str.s)).value
  {
    if !Truthy(str) then Null
    else match str
      case Str(s) =>
        RewriteIsQuoteSwap(s);
        parse(Rewrite(s)).GetOr(Null)
      case _ => Null
  }

  /** An apostrophe inside a double-quoted value is turned into a `"` as well, so
      `"it's"` reaches JSON.parse as `"it"s"`, which is not valid JSON. */
  lemma ApostropheInDoubleQuotedValueBecomesQuote(cell: string)
    requires cell == "{'ref': \"it's\"}"
    ensures Rewrite(cell) == "{\"ref\": \"it\"s\"}"
  {
    var sent := "{\"ref\": \"it\"s\"}";
    RewriteIsQuoteSwap(cell);
    forall i | 0 <= i < |cell| ensures Rewrite(cell)[i] == sent[i] {
    }
  }

  /** The substitution works piece by piece. */
  lemma {:induction false} SingleToDoubleAppend(a: string, b: string)
    ensures SingleToDouble(a + b) == SingleToDouble(a) + SingleToDouble(b)
  {
    if a != [] {
      assert (a + b)[1..] == a[1..] + b;
      SingleToDoubleAppend(a[1..], b);
    } else {
      assert a + b == b;
    }
  }

  lemma SingleToDoubleOneChar(c: char)
    ensures SingleToDouble([c]) == [if c == '\'' then '"' else c]
  {
  }

  /** In general, a `'` inside a double-quoted value closes that value early:
      `"w1'w2"` reaches JSON.parse as `"w1"w2"`. */
  lemma {:induction false} ApostropheSplitsDoubleQuotedValue(before: string, w1: string, w2: string, after: string)
    ensures Rewrite(before + ['"'] + w1 + ['\''] + w2 + ['"'] + after)
         == SingleToDouble(before) + ['"'] + SingleToDouble(w1) + ['"']
              + SingleToDouble(w2) + ['"'] + SingleToDouble(after)
  {
    var q, a := ['"'], ['\''];
    SingleToDoubleOneChar('"');
    SingleToDoubleOneChar('\'');
    var s1 := before + q;
    var s2 := s1 + w1;
    var s3 := s2 + a;
    var s4 := s3 + w2;
    var s5 := s4 + q;
    var s6 := s5 + after;
    SingleToDoubleAppend(before, q);
    SingleToDoubleAppend(s1, w1);
    SingleToDoubleAppend(s2, a);
    SingleToDoubleAppend(s3, w2);
    SingleToDoubleAppend(s4, q);
    SingleToDoubleAppend(s5, after);
    var t1 := SingleToDouble(before) + q;
    var t2 := t1 + SingleToDouble(w1);
    var t3 := t2 + q;
    var t4 := t3 + SingleToDouble(w2);
    var t5 := t4 + q;
    var t6 := t5 + SingleToDouble(after);
    assert SingleToDouble(s1) == t1;
    assert SingleToDouble(s2) == t2;
    assert SingleToDouble(s3) == t3;
    assert SingleToDouble(s4) == t4;
    assert SingleToDouble(s5) == t5;
    assert SingleToDouble(s6) == t6;
    KeyPassIsIdentity(SingleToDouble(s6));
    assert Rewrite(s6) == t6;
  }
}
