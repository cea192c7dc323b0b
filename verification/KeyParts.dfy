/** Keys made of parts with colons between them, and when the parts can be told from the key. */
module KeyParts {

  function Colons(s: string): nat {
    if s == "" then 0 else (if s[0] == ':' then 1 else 0) + Colons(s[1..])
  }

  lemma {:induction false} ColonsAppend(a: string, b: string)
    ensures Colons(a + b) == Colons(a) + Colons(b)
  {
    if a == "" {
      assert a + b == b;
    } else {
      ColonsAppend(a[1..], b);
      assert (a + b)[1..] == a[1..] + b;
    }
  }

  /** A text cut at one colon determines both sides once the number of colons on the left is known. */
  lemma CutIsUnique(a: string, b: string, c: string, d: string)
    requires a + ":" + b == c + ":" + d && Colons(a) == Colons(c)
    ensures a == c && b == d
  {
    if |a| < |c| {
      LongerHasMoreColons(a, b, c, d);
    } else if |c| < |a| {
      LongerHasMoreColons(c, d, a, b);
    } else {
      var text := a + ":" + b;
      assert a == text[..|a|] && c == (c + ":" + d)[..|c|];
      assert b == text[|a| + 1..] && d == (c + ":" + d)[|c| + 1..];
    }
  }

  lemma LongerHasMoreColons(a: string, b: string, c: string, d: string)
    requires a + ":" + b == c + ":" + d && |a| < |c|
    ensures Colons(a) < Colons(c)
  {
    var text := a + ":" + b;
    assert c == (c + ":" + d)[..|c|] == text[..|c|];
    var rest := c[|a| + 1..];
    assert c == a + ":" + rest;
    ColonsAppend(a + ":", rest);
    ColonsAppend(a, ":");
  }

  lemma ColonsOfPair(a: string, b: string)
    ensures Colons(a + ":" + b) == Colons(a) + 1 + Colons(b)
  {
    ColonsAppend(a + ":", b);
    ColonsAppend(a, ":");
  }

  /** A text with a colon, cut at its first one. */
  lemma {:induction false} CutAtColon(s: string) returns (x: string, y: string)
    requires Colons(s) > 0
    ensures s == x + ":" + y
  {
    if s[0] == ':' {
      x, y := "", s[1..];
    } else {
      x, y := CutAtColon(s[1..]);
      x := [s[0]] + x;
    }
  }
}
