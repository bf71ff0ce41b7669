/** Texts as the platform trims them. */
module Text {
  /** ECMAScript white space and line terminators. */
  predicate IsSpace(c: char) {
    c in " \t\n\r\U{000B}\U{000C}\U{00A0}\U{1680}\U{2000}\U{2001}\U{2002}\U{2003}\U{2004}\U{2005}\U{2006}\U{2007}\U{2008}\U{2009}\U{200A}\U{2028}\U{2029}\U{202F}\U{205F}\U{3000}\U{FEFF}"
  }

  function Trim(s: string): string
    decreases |s|
  {
    if |s| > 0 && IsSpace(s[0]) then Trim(s[1..])
    else if |s| > 0 && IsSpace(s[|s| - 1]) then Trim(s[..|s| - 1])
    else s
  }

  /** Spaces around a text make no difference, and what is left neither begins nor ends with
      one. */
  lemma {:induction false} TrimIgnoresSpaces(before: string, s: string, after: string)
    requires forall c :: c in before + after ==> IsSpace(c)
    ensures Trim(before + s + after) == Trim(s)
    ensures Trim(s) != "" ==> !IsSpace(Trim(s)[0]) && !IsSpace(Trim(s)[|Trim(s)| - 1])
    decreases |before| + |s| + |after|
  {
    hide IsSpace;
    var all := before + s + after;
    if |before| > 0 {
      assert before[0] in before + after && all[1..] == before[1..] + s + after;
      TrimIgnoresSpaces(before[1..], s, after);
    } else if |s| > 0 && IsSpace(s[0]) {
      assert all[1..] == before + s[1..] + after;
      TrimIgnoresSpaces(before, s[1..], after);
    } else if |s| == 0 {
      assert all == after && before + after == after;
      OnlySpaces(after);
    } else if |after| > 0 {
      var front := after[..|after| - 1];
      assert after[|after| - 1] in before + after && all[..|all| - 1] == before + s + front;
      TrimIgnoresSpaces(before, s, front);
    } else if |s| > 0 && IsSpace(s[|s| - 1]) {
      TrimIgnoresSpaces(before, s[..|s| - 1], after);
      assert all == s;
    } else {
      assert all == s;
    }
  }

  lemma {:induction false} OnlySpaces(s: string)
    requires forall c :: c in s ==> IsSpace(c)
    ensures Trim(s) == ""
  {
    hide IsSpace;
    if |s| > 0 {
      assert s[0] in s;
      OnlySpaces(s[1..]);
    }
  }
}
