/**
 * The page helpers of `utils.js`: HTML escaping by a chain of `replaceAll`
 * calls, the member id generator, the `localStorage` load/save pair and the
 * day key builder.
 */
module Utils {
  import opened Common

  // ----- escapeHtml -----

  /** `s.replaceAll(c, rep)` for a one-character pattern. */
  function ReplaceAll(s: string, c: char, rep: string): (r: string)
    ensures c !in s ==> r == s
    ensures c !in rep ==> c !in r
    decreases |s|
  {
    if s == [] then []
    else (if s[0] == c then rep else [s[0]]) + ReplaceAll(s[1..], c, rep)
  }

  /** Replacing in a concatenation replaces in each part. */
  lemma {:induction false} ReplaceAllConcat(a: string, b: string, c: char, rep: string)
    ensures ReplaceAll(a + b, c, rep) == ReplaceAll(a, c, rep) + ReplaceAll(b, c, rep)
    decreases |a|
  {
    if a == [] {
      assert a + b == b;
    } else {
      assert (a + b)[0] == a[0];
      assert (a + b)[1..] == a[1..] + b;
      ReplaceAllConcat(a[1..], b, c, rep);
    }
  }

  /** `escapeHtml`: `&` first, then `<`, `>`, `"` and `'`. */
  function EscapeHtml(s: string): string {
    var s1 := ReplaceAll(s, '&', "&amp;");
    var s2 := ReplaceAll(s1, '<', "&lt;");
    var s3 := ReplaceAll(s2, '>', "&gt;");
    var s4 := ReplaceAll(s3, '"', "&quot;");
    ReplaceAll(s4, '\'', "&#039;")
  }

  /** The entity of one character, or the character itself. */
  function EscapeChar(c: char): (e: string)
    ensures |e| >= 1
    ensures (c == '&' || c == '<' || c == '>' || c == '"' || c == '\'') <==> e != [c]
  {
    if c == '&' then "&amp;"
    else if c == '<' then "&lt;"
    else if c == '>' then "&gt;"
    else if c == '"' then "&quot;"
    else if c == '\'' then "&#039;"
    else [c]
  }

  /** The per-character mapping: each character replaced by its own entity, independently. */
  function EscapeSpec(s: string): string
    decreases |s|
  {
    if s == [] then [] else EscapeChar(s[0]) + EscapeSpec(s[1..])
  }

  lemma EscapeHtmlConcat(a: string, b: string)
    ensures EscapeHtml(a + b) == EscapeHtml(a) + EscapeHtml(b)
  {
    var a1, b1 := ReplaceAll(a, '&', "&amp;"), ReplaceAll(b, '&', "&amp;");
    ReplaceAllConcat(a, b, '&', "&amp;");
    var a2, b2 := ReplaceAll(a1, '<', "&lt;"), ReplaceAll(b1, '<', "&lt;");
    ReplaceAllConcat(a1, b1, '<', "&lt;");
    var a3, b3 := ReplaceAll(a2, '>', "&gt;"), ReplaceAll(b2, '>', "&gt;");
    ReplaceAllConcat(a2, b2, '>', "&gt;");
    var a4, b4 := ReplaceAll(a3, '"', "&quot;"), ReplaceAll(b3, '"', "&quot;");
    ReplaceAllConcat(a3, b3, '"', "&quot;");
    ReplaceAllConcat(a4, b4, '\'', "&#039;");
  }

  lemma ReplaceOne(x: char, c: char, rep: string)
    ensures ReplaceAll([x], c, rep) == if x == c then rep else [x]
  {
    assert [x][1..] == [];
  }

  /** A single character escapes to its own entity, because no later pattern occurs in an earlier entity. */
  lemma EscapeOne(x: char)
    ensures EscapeHtml([x]) == EscapeChar(x)
  {
    ReplaceOne(x, '&', "&amp;");
    if x == '&' {
      var s1 := ReplaceAll([x], '&', "&amp;");
      assert s1 == "&amp;";
      Rest(s1, s1);
    } else {
      EscapeOneAfterAmp(x);
    }
  }

  lemma EscapeOneAfterAmp(x: char)
    requires x != '&'
    ensures EscapeHtml([x]) == EscapeChar(x)
  {
    ReplaceOne(x, '&', "&amp;");
    ReplaceOne(x, '<', "&lt;");
    if x == '<' {
      Rest3("&lt;");
    } else {
      ReplaceOne(x, '>', "&gt;");
      if x == '>' {
        Rest2("&gt;");
      } else {
        EscapeOneLate(x);
      }
    }
  }

  lemma EscapeOneLate(x: char)
    requires x != '&' && x != '<' && x != '>'
    ensures ReplaceAll(ReplaceAll([x], '"', "&quot;"), '\'', "&#039;") == EscapeChar(x)
  {
    ReplaceOne(x, '"', "&quot;");
    ReplaceOne(x, '\'', "&#039;");
    if x == '"' {
      assert ReplaceAll("&quot;", '\'', "&#039;") == "&quot;";
    }
  }

  lemma Rest2(e: string)
    requires '"' !in e && '\'' !in e
    ensures ReplaceAll(ReplaceAll(e, '"', "&quot;"), '\'', "&#039;") == e
  {
  }

  lemma Rest3(e: string)
    requires '>' !in e && '"' !in e && '\'' !in e
    ensures ReplaceAll(ReplaceAll(ReplaceAll(e, '>', "&gt;"), '"', "&quot;"), '\'', "&#039;") == e
  {
  }

  /** Text without the later patterns goes through the rest of the chain unchanged. */
  lemma Rest(s: string, e: string)
    requires s == e && '<' !in e && '>' !in e && '"' !in e && '\'' !in e
    ensures ReplaceAll(ReplaceAll(ReplaceAll(ReplaceAll(s, '<', "&lt;"), '>', "&gt;"), '"', "&quot;"), '\'', "&#039;") == e
  {
  }

  /** Because `&` is replaced first, the chain equals the per-character mapping: nothing is escaped twice. */
  lemma {:induction false} EscapeHtmlPerChar(s: string)
    ensures EscapeHtml(s) == EscapeSpec(s)
    decreases |s|
  {
    if s != [] {
      assert s == [s[0]] + s[1..];
      EscapeHtmlConcat([s[0]], s[1..]);
      EscapeOne(s[0]);
      EscapeHtmlPerChar(s[1..]);
    }
  }

  predicate Markup(c: char) {
    c == '<' || c == '>' || c == '"' || c == '\''
  }

  predicate NoMarkup(t: string) {
    forall i :: 0 <= i < |t| ==> !Markup(t[i])
  }

  lemma {:induction false} EscapeSpecNoMarkup(s: string)
    ensures NoMarkup(EscapeSpec(s))
    decreases |s|
  {
    if s != [] {
      EscapeSpecNoMarkup(s[1..]);
      var e, t := EscapeChar(s[0]), EscapeSpec(s[1..]);
      assert NoMarkup(e);
      forall i | 0 <= i < |e + t|
        ensures !Markup((e + t)[i])
      {
        if i >= |e| {
          assert (e + t)[i] == t[i - |e|];
        }
      }
    }
  }

  /** The escaped text holds no raw `<`, `>`, `"` or `'`. */
  lemma EscapeHtmlNoMarkup(s: string)
    ensures NoMarkup(EscapeHtml(s))
  {
    EscapeHtmlPerChar(s);
    EscapeSpecNoMarkup(s);
  }

  /** A decoder of exactly the five entities, as a reference for what escaping loses (nothing). */
  function Unescape(s: string): string
    decreases |s|
  {
    if |s| >= 5 && s[..5] == "&amp;" then "&" + Unescape(s[5..])
    else if |s| >= 4 && s[..4] == "&lt;" then "<" + Unescape(s[4..])
    else if |s| >= 4 && s[..4] == "&gt;" then ">" + Unescape(s[4..])
    else if |s| >= 6 && s[..6] == "&quot;" then "\"" + Unescape(s[6..])
    else if |s| >= 6 && s[..6] == "&#039;" then "'" + Unescape(s[6..])
    else if s == [] then []
    else [s[0]] + Unescape(s[1..])
  }

  lemma UnescapeHead(c: char, t: string)
    ensures Unescape(EscapeChar(c) + t) == [c] + Unescape(t)
  {
    if c == '&' {
      UnescapeAmp(t);
    } else if c == '<' {
      UnescapeLt(t);
    } else if c == '>' {
      UnescapeGt(t);
    } else if c == '"' {
      UnescapeQuot(t);
    } else if c == '\'' {
      UnescapeApos(t);
    } else {
      var s := [c] + t;
      assert s[0] == c && s[1..] == t;
      assert s[..1] == [c];
    }
  }

  lemma UnescapeAmp(t: string)
    ensures Unescape("&amp;" + t) == "&" + Unescape(t)
  {
    var s := "&amp;" + t;
    assert s[..5] == "&amp;" && s[5..] == t;
  }

  lemma UnescapeLt(t: string)
    ensures Unescape("&lt;" + t) == "<" + Unescape(t)
  {
    var s := "&lt;" + t;
    assert s[..4] == "&lt;" && s[4..] == t;
    assert s[1] == 'l';
    assert !(|s| >= 5 && s[..5] == "&amp;");
  }

  lemma UnescapeGt(t: string)
    ensures Unescape("&gt;" + t) == ">" + Unescape(t)
  {
    var s := "&gt;" + t;
    assert s[..4] == "&gt;" && s[4..] == t;
    assert s[1] == 'g';
    assert !(|s| >= 5 && s[..5] == "&amp;");
    assert !(s[..4] == "&lt;");
  }

  lemma UnescapeQuot(t: string)
    ensures Unescape("&quot;" + t) == "\"" + Unescape(t)
  {
    var s := "&quot;" + t;
    assert s[..6] == "&quot;" && s[6..] == t;
    assert s[1] == 'q';
    assert !(s[..5] == "&amp;");
    assert !(s[..4] == "&lt;") && !(s[..4] == "&gt;");
  }

  lemma UnescapeApos(t: string)
    ensures Unescape("&#039;" + t) == "'" + Unescape(t)
  {
    var s := "&#039;" + t;
    assert s[..6] == "&#039;" && s[6..] == t;
    assert s[1] == '#';
    assert !(s[..5] == "&amp;");
    assert !(s[..4] == "&lt;") && !(s[..4] == "&gt;");
    assert !(s[..6] == "&quot;");
  }

  /** Escaping loses nothing: decoding the five entities gives the text back. */
  lemma {:induction false} UnescapeEscape(s: string)
    ensures Unescape(EscapeHtml(s)) == s
    decreases |s|
  {
    EscapeHtmlPerChar(s);
    if s != [] {
      UnescapeHead(s[0], EscapeSpec(s[1..]));
      UnescapeEscape(s[1..]);
      EscapeHtmlPerChar(s[1..]);
    }
  }

  // ----- uid -----

  function Base36Digit(d: nat): (c: char)
    requires d < 36
  {
    if d < 10 then ('0' as int + d) as char else ('a' as int + d - 10) as char
  }

  /** `n.toString(36)` for a whole number. */
  function ToBase36(n: nat): (s: string)
    ensures |s| >= 1
  {
    if n < 36 then [Base36Digit(n)] else ToBase36(n / 36) + [Base36Digit(n % 36)]
  }

  lemma {:induction false} Base36Length(n: nat, k: nat, p: nat)
    requires p >= 1 && n >= p && (k == 0 ==> p == 1)
    requires k > 0 ==> p >= 36 && p % 36 == 0
    ensures k <= 3 && p == Pow36(k) ==> |ToBase36(n)| >= k + 1
    decreases k
  {
    if k > 0 && k <= 3 && p == Pow36(k) {
      var q := p / 36;
      assert q == Pow36(k - 1);
      assert n / 36 >= q;
      if k == 1 {
        Base36Length(n / 36, 0, 1);
      } else {
        Base36Length(n / 36, k - 1, q);
      }
    }
  }

  lemma Base36Four(n: nat)
    ensures n >= 46656 ==> |ToBase36(n)| >= 4
  {
    if n >= 46656 {
      Base36Length(n, 3, 46656);
    }
  }

  function Pow36(k: nat): nat {
    if k == 0 then 1 else 36 * Pow36(k - 1)
  }

  /** `String.prototype.slice(start, end)` with JavaScript's clamping of negative and large bounds. */
  function JsSlice(s: string, start: int, end: int): (r: string)
    ensures |r| <= |s|
  {
    var from := if start < 0 then Max(|s| + start, 0) else Min(start, |s|);
    var to := if end < 0 then Max(|s| + end, 0) else Min(end, |s|);
    if from >= to then "" else s[from..to]
  }

  /**
   * `uid()`: `"m_"`, then the characters at 2..9 of the random number's
   * base-36 text (`rand36`, the random choice), then the last four base-36
   * digits of the clock.
   */
  function Uid(rand36: string, now: nat): (r: string)
    ensures |r| >= 2 && r[..2] == "m_"
    ensures |r| <= 13
    ensures now >= 46656 ==> |r| == 2 + |JsSlice(rand36, 2, 9)| + 4
  {
    var clock := ToBase36(now);
    Base36Four(now);
    "m_" + JsSlice(rand36, 2, 9) + JsSlice(clock, -4, |clock|)
  }

  // ----- load / save -----

  /**
   * One `localStorage` item as `JSON.parse` sees it: missing or the empty
   * string, the text of a value, or text that does not parse.
   */
  datatype Raw<V> = Empty | Value(v: V) | Malformed

  /** `load(key, fallback)` over the stored items. */
  function LoadFrom<V>(items: map<string, Raw<V>>, key: string, fallback: V): (v: V)
    ensures key !in items || !items[key].Value? ==> v == fallback
  {
    if key in items && items[key].Value? then items[key].v else fallback
  }

  /** After `save(key, data)`, `load(key, …)` gives the data back and every other key loads as before. */
  lemma SaveThenLoad<V>(items: map<string, Raw<V>>, key: string, data: V, k: string, fallback: V)
    ensures LoadFrom(items[key := Value(data)], k, fallback)
            == if k == key then data else LoadFrom(items, k, fallback)
  {
  }

  /** The `localStorage` items holding values of one shape. */
  class Store<V> {
    var items: map<string, Raw<V>>

    constructor (items: map<string, Raw<V>>)
      ensures this.items == items
    {
      this.items := items;
    }

    function Load(key: string, fallback: V): (v: V)
      reads this
      ensures v == LoadFrom(items, key, fallback)
    {
      LoadFrom(items, key, fallback)
    }

    method Save(key: string, data: V)
      modifies this`items
      ensures items == old(items)[key := Value(data)]
      ensures forall f: V :: Load(key, f) == data
    {
      items := items[key := Value(data)];
    }
  }

  // ----- todayKeyFrom -----

  /** `todayKeyFrom(dateStr, prefix)`, the prefix defaulting to `"bm_day_"` when it is not passed. */
  function TodayKeyFrom(dateStr: string, prefix: Option<string>): (k: string)
    ensures |k| == |prefix.GetOr("bm_day_")| + |dateStr|
  {
    prefix.GetOr("bm_day_") + dateStr
  }

  /** The key starts with the prefix and the rest of it is the date, so different dates give different keys. */
  lemma TodayKeyParts(dateStr: string, other: string, prefix: Option<string>)
    ensures var p := prefix.GetOr("bm_day_"); var k := TodayKeyFrom(dateStr, prefix);
            k[..|p|] == p && k[|p|..] == dateStr
    ensures dateStr != other ==> TodayKeyFrom(dateStr, prefix) != TodayKeyFrom(other, prefix)
  {
    var p := prefix.GetOr("bm_day_");
    var k, k' := TodayKeyFrom(dateStr, prefix), TodayKeyFrom(other, prefix);
    assert k[|p|..] == dateStr && k'[|p|..] == other;
  }
}
