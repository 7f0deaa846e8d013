/**
 * `parseMaskedValue`: turns the unmasked text of a currency or percentage
 * field into a number. The sanitiser assumes the Brazilian format: `.`
 * groups thousands and `,` is the decimal mark. The text is sanitised here;
 * the numeric parsing itself is JavaScript's `parseFloat`, passed in as a
 * function.
 */
module MaskedValue {
  import opened Wrappers

  /** The number of occurrences of `c` in `s`. */
  function Count(c: char, s: string): nat {
    if s == [] then 0 else (if s[0] == c then 1 else 0) + Count(c, s[1..])
  }

  /** `replace(/\./g, '')`: every thousands separator dropped, everything else kept in order. */
  function RemoveDots(s: string): (r: string)
    ensures '.' !in r
    ensures forall c :: c != '.' ==> Count(c, r) == Count(c, s)
  {
    if s == [] then []
    else if s[0] == '.' then RemoveDots(s[1..])
    else [s[0]] + RemoveDots(s[1..])
  }

  /** `replace(',', '.')` with a string pattern: only the first comma becomes a decimal point. */
  function ReplaceFirstComma(s: string): (r: string)
    ensures |r| == |s|
    ensures forall i :: 0 <= i < |s| ==> r[i] == if s[i] == ',' && ',' !in s[..i] then '.' else s[i]
  {
    if s == [] then []
    else if s[0] == ',' then ['.'] + s[1..]
    else
      var rest := ReplaceFirstComma(s[1..]);
      assert forall i :: 1 <= i < |s| ==> s[..i] == [s[0]] + s[1..][..i - 1];
      [s[0]] + rest
  }

  /** The text `parseFloat` is given: dots removed, then the first comma made the decimal point. */
  function Sanitize(s: string): (r: string)
    ensures '.' in r <==> ',' in s
  {
    var t := RemoveDots(s);
    ReplaceFirstCommaCounts(t);
    CountPositiveIffIn('.', t);
    CountPositiveIffIn(',', t);
    CountPositiveIffIn(',', s);
    CountPositiveIffIn('.', ReplaceFirstComma(t));
    ReplaceFirstComma(t)
  }

  /**
   * `parseMaskedValue`: 0 for an empty text; otherwise `parseFloat` of the
   * sanitised text, with NaN (`None`) turned into 0 by `|| 0`.
   */
  function ParseMaskedValue(text: string, parseFloat: string -> Option<real>): (v: real)
    ensures text == [] ==> v == 0.0
    ensures text != [] && parseFloat(Sanitize(text)).None? ==> v == 0.0
    ensures text != [] && parseFloat(Sanitize(text)).Some? ==> v == parseFloat(Sanitize(text)).value
  {
    if text == [] then 0.0 else parseFloat(Sanitize(text)).GetOr(0.0)
  }

  lemma {:induction false} CountPositiveIffIn(c: char, s: string)
    ensures Count(c, s) > 0 <==> c in s
  {
    if s != [] {
      CountPositiveIffIn(c, s[1..]);
      assert s == [s[0]] + s[1..];
    }
  }

  /** Replacing the first comma adds one decimal point and removes one comma, if there is a comma. */
  lemma {:induction false} ReplaceFirstCommaCounts(s: string)
    ensures Count('.', ReplaceFirstComma(s)) == Count('.', s) + (if ',' in s then 1 else 0)
    ensures Count(',', ReplaceFirstComma(s)) == Count(',', s) - (if ',' in s then 1 else 0)
    ensures forall c :: c != '.' && c != ',' ==> Count(c, ReplaceFirstComma(s)) == Count(c, s)
  {
    if s != [] {
      var r := ReplaceFirstComma(s);
      assert r[1..] == (if s[0] == ',' then s[1..] else ReplaceFirstComma(s[1..]));
      assert ',' in s <==> s[0] == ',' || ',' in s[1..];
      if s[0] != ',' {
        ReplaceFirstCommaCounts(s[1..]);
      } else {
        CountPositiveIffIn(',', s);
      }
      if ',' in s[1..] {
        CountPositiveIffIn(',', s[1..]);
      }
    }
  }

  /**
   * The sanitised text holds at most one decimal point: exactly one when the
   * original text has a comma, none otherwise. Every digit and every other
   * character except the separators is kept with its multiplicity.
   */
  lemma SanitizeSeparators(s: string)
    ensures Count('.', Sanitize(s)) == (if ',' in s then 1 else 0)
    ensures Count(',', Sanitize(s)) == (if ',' in s then Count(',', s) - 1 else 0)
    ensures forall c :: c != '.' && c != ',' ==> Count(c, Sanitize(s)) == Count(c, s)
  {
    var t := RemoveDots(s);
    ReplaceFirstCommaCounts(t);
    CountPositiveIffIn('.', t);
    CountPositiveIffIn(',', t);
    CountPositiveIffIn(',', s);
  }

  /** Removing dots distributes over concatenation: it acts on each character on its own. */
  lemma {:induction false} RemoveDotsAppend(a: string, b: string)
    ensures RemoveDots(a + b) == RemoveDots(a) + RemoveDots(b)
  {
    if a == [] {
      assert a + b == b;
    } else {
      assert (a + b)[0] == a[0] && (a + b)[1..] == a[1..] + b;
      RemoveDotsAppend(a[1..], b);
    }
  }

  /** A text without dots is left alone by the dot removal. */
  lemma {:induction false} RemoveDotsNoDots(s: string)
    requires '.' !in s
    ensures RemoveDots(s) == s
  {
    if s != [] {
      assert '.' !in s[1..];
      RemoveDotsNoDots(s[1..]);
    }
  }

  /** Only the first comma is replaced: a comma-free prefix is kept and the replacement happens in the rest. */
  lemma {:induction false} ReplaceFirstCommaAfterPrefix(a: string, b: string)
    requires ',' !in a
    ensures ReplaceFirstComma(a + b) == a + ReplaceFirstComma(b)
  {
    if a == [] {
      assert a + b == b;
    } else {
      assert (a + b)[0] == a[0] && (a + b)[1..] == a[1..] + b;
      assert ',' !in a[1..];
      ReplaceFirstCommaAfterPrefix(a[1..], b);
    }
  }

  /** A text without separators passes through the sanitiser unchanged. */
  lemma SanitizePlainDigits(s: string)
    requires '.' !in s && ',' !in s
    ensures Sanitize(s) == s
  {
    RemoveDotsNoDots(s);
    ReplaceFirstCommaAfterPrefix(s, []);
    assert s + [] == s;
  }
}
