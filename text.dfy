/**
 * The three string operations the screens use: `String.prototype.trim`,
 * `toLowerCase` and `includes`. Characters are handled as ASCII: only the
 * ASCII white-space characters are trimmed and only 'A'..'Z' are lowered.
 */
module Text {

  /** Space, tab, line feed, vertical tab, form feed, carriage return. */
  predicate IsSpace(c: char) {
    c == ' ' || c == '\t' || c == '\n' || c == '\U{000B}' || c == '\U{000C}' || c == '\r'
  }

  predicate IsBlank(s: string) {
    forall k :: 0 <= k < |s| ==> IsSpace(s[k])
  }

  function TrimStart(s: string): (r: string)
    ensures r == [] || !IsSpace(r[0])
    ensures |r| <= |s| && r == s[|s| - |r|..]
    ensures forall k :: 0 <= k < |s| - |r| ==> IsSpace(s[k])
    decreases |s|
  {
    if s != [] && IsSpace(s[0]) then TrimStart(s[1..]) else s
  }

  function TrimEnd(s: string): (r: string)
    ensures r == [] || !IsSpace(r[|r| - 1])
    ensures |r| <= |s| && r == s[..|r|]
    ensures forall k :: |r| <= k < |s| ==> IsSpace(s[k])
    decreases |s|
  {
    if s != [] && IsSpace(s[|s| - 1]) then TrimEnd(s[..|s| - 1]) else s
  }

  /**
   * `s.trim()`: neither end of the result is white space, it is no longer than
   * `s`, and it is empty exactly when `s` is all white space.
   */
  function Trim(s: string): (r: string)
    ensures r == [] || (!IsSpace(r[0]) && !IsSpace(r[|r| - 1]))
    ensures |r| <= |s|
    ensures r == [] <==> IsBlank(s)
  {
    TrimEmptyIffBlank(s);
    TrimEndKeepsFirst(TrimStart(s));
    TrimEnd(TrimStart(s))
  }

  lemma TrimEndKeepsFirst(s: string)
    ensures TrimEnd(s) == [] || TrimEnd(s)[0] == s[0]
  {
    var r := TrimEnd(s);
    if r != [] {
      assert r[0] == s[..|r|][0];
    }
  }

  /** Trimming leaves nothing exactly when the string is all white space. */
  lemma TrimEmptyIffBlank(s: string)
    ensures TrimEnd(TrimStart(s)) == [] <==> IsBlank(s)
  {
    var t := TrimStart(s);
    if TrimEnd(t) == [] {
      assert IsBlank(t[|TrimEnd(t)|..]);
      assert t == t[0..];
      forall k | 0 <= k < |s| ensures IsSpace(s[k]) {
        assert s[k] == s[..|s| - |t|][k];
      }
    }
  }

  lemma {:induction false} TrimStartPadded(s: string, pad: string)
    requires IsBlank(pad)
    ensures TrimStart(pad + s) == TrimStart(s)
    decreases |pad|
  {
    if pad != [] {
      assert (pad + s)[0] == pad[0] && IsSpace(pad[0]);
      assert (pad + s)[1..] == pad[1..] + s;
      TrimStartPadded(s, pad[1..]);
    } else {
      assert pad + s == s;
    }
  }

  lemma {:induction false} TrimEndPadded(s: string, pad: string)
    requires IsBlank(pad)
    ensures TrimEnd(s + pad) == TrimEnd(s)
    decreases |pad|
  {
    if pad != [] {
      var p := pad[..|pad| - 1];
      assert (s + pad)[|s + pad| - 1] == pad[|pad| - 1] && IsSpace(pad[|pad| - 1]);
      assert (s + pad)[..|s + pad| - 1] == s + p;
      TrimEndPadded(s, p);
    } else {
      assert s + pad == s;
    }
  }

  /** Surrounding a string with white space does not change what trimming leaves. */
  lemma TrimPadded(s: string, pad: string)
    requires IsBlank(pad)
    ensures Trim(pad + s + pad) == Trim(s)
  {
    var x := pad + s + pad;
    assert x == pad + (s + pad);
    TrimStartPadded(s + pad, pad);
    assert TrimStart(x) == TrimStart(s + pad);
    TrimStartSuffix(s, pad);
    if TrimStart(s + pad) == TrimStart(s) + pad {
      TrimEndPadded(TrimStart(s), pad);
      assert TrimEnd(TrimStart(x)) == TrimEnd(TrimStart(s));
    } else {
      assert TrimStart(x) == [] && TrimStart(s) == [];
    }
  }

  /** Leading white space is removed the same way whatever follows. */
  lemma {:induction false} TrimStartSuffix(s: string, pad: string)
    requires IsBlank(pad)
    ensures TrimStart(s + pad) == TrimStart(s) + pad || (IsBlank(s) && TrimStart(s + pad) == [] && TrimStart(s) == [])
    decreases |s|
  {
    if s != [] {
      assert (s + pad)[1..] == s[1..] + pad;
      TrimStartSuffix(s[1..], pad);
    } else {
      TrimStartBlank(pad);
    }
  }

  lemma {:induction false} TrimStartBlank(s: string)
    requires IsBlank(s)
    ensures TrimStart(s) == []
    decreases |s|
  {
    if s != [] {
      TrimStartBlank(s[1..]);
    }
  }

  function LowerChar(c: char): char {
    if 'A' <= c <= 'Z' then (c as int + 32) as char else c
  }

  /** `s.toLowerCase()` on ASCII letters. */
  function Lower(s: string): (r: string)
    ensures |r| == |s|
    ensures forall k :: 0 <= k < |r| ==> !('A' <= r[k] <= 'Z')
    ensures forall k :: 0 <= k < |s| && !('A' <= s[k] <= 'Z') ==> r[k] == s[k]
    ensures forall k :: 0 <= k < |s| && 'A' <= s[k] <= 'Z' ==> r[k] as int == s[k] as int + 32
  {
    seq(|s|, k requires 0 <= k < |s| => LowerChar(s[k]))
  }

  /** `hay.includes(needle)`: the needle occurs in the haystack at some position. */
  predicate Contains(hay: string, needle: string)
    decreases |hay|
  {
    needle <= hay || (hay != [] && Contains(hay[1..], needle))
  }

  /** `Contains` holds exactly when some suffix of the haystack starts with the needle. */
  lemma {:induction false} ContainsIffOccursAt(hay: string, needle: string)
    ensures Contains(hay, needle) <==> exists k :: 0 <= k <= |hay| && needle <= hay[k..]
    decreases |hay|
  {
    if hay != [] {
      ContainsIffOccursAt(hay[1..], needle);
      if exists k :: 0 <= k <= |hay| && needle <= hay[k..] {
        var k :| 0 <= k <= |hay| && needle <= hay[k..];
        if k > 0 {
          assert hay[1..][k - 1..] == hay[k..];
        }
      }
      if Contains(hay[1..], needle) {
        var k :| 0 <= k <= |hay[1..]| && needle <= hay[1..][k..];
        assert hay[1..][k..] == hay[k + 1..];
      }
    } else {
      assert hay[0..] == hay;
    }
  }

  /** A string occurs in any string that has it as an infix. */
  lemma ContainsInfix(a: string, x: string, b: string)
    ensures Contains(a + x + b, x)
  {
    ContainsIffOccursAt(a + x + b, x);
    assert x <= (a + x + b)[|a|..];
  }

  /** Lower-casing works character by character, so a lowered infix occurs in the lowered whole. */
  lemma ContainsLowerInfix(a: string, x: string, b: string)
    ensures Contains(Lower(a + x + b), Lower(x))
  {
    LowerAppend(a + x, b);
    LowerAppend(a, x);
    ContainsInfix(Lower(a), Lower(x), Lower(b));
  }

  lemma LowerAppend(a: string, b: string)
    ensures Lower(a + b) == Lower(a) + Lower(b)
  {
    var l, r := Lower(a + b), Lower(a) + Lower(b);
    forall k | 0 <= k < |l| ensures l[k] == r[k] {
      if k < |a| {
        assert (a + b)[k] == a[k];
      } else {
        assert (a + b)[k] == b[k - |a|];
      }
    }
  }

  /** A needle longer than the haystack never occurs in it. */
  lemma {:induction false} ContainsFits(hay: string, needle: string)
    requires Contains(hay, needle)
    ensures |needle| <= |hay|
    decreases |hay|
  {
    if !(needle <= hay) {
      ContainsFits(hay[1..], needle);
    }
  }

  /** White space is unaffected by lower-casing. */
  lemma LowerKeepsSpace(c: char)
    ensures IsSpace(LowerChar(c)) <==> IsSpace(c)
  {
  }

  /** Lower-casing keeps a string that starts and ends with a non-space character so. */
  lemma LowerKeepsEnds(s: string)
    requires s == [] || (!IsSpace(s[0]) && !IsSpace(s[|s| - 1]))
    ensures Lower(s) == [] || (!IsSpace(Lower(s)[0]) && !IsSpace(Lower(s)[|Lower(s)| - 1]))
  {
    if s != [] {
      LowerKeepsSpace(s[0]);
      LowerKeepsSpace(s[|s| - 1]);
    }
  }

  /** A trimmed, lower-cased string is empty exactly when the input is blank, and has no white space at either end. */
  lemma LowerTrimmed(s: string)
    ensures Lower(Trim(s)) == [] <==> IsBlank(s)
    ensures Lower(Trim(s)) == [] || (!IsSpace(Lower(Trim(s))[0]) && !IsSpace(Lower(Trim(s))[|Lower(Trim(s))| - 1]))
  {
    LowerKeepsEnds(Trim(s));
  }

  /** Lower-casing and trimming commute: the query may be trimmed before or after lowering. */
  lemma {:induction false} TrimStartLower(s: string)
    ensures TrimStart(Lower(s)) == Lower(TrimStart(s))
    decreases |s|
  {
    if s != [] {
      LowerKeepsSpace(s[0]);
      assert Lower(s)[1..] == Lower(s[1..]);
      TrimStartLower(s[1..]);
    }
  }

  lemma {:induction false} TrimEndLower(s: string)
    ensures TrimEnd(Lower(s)) == Lower(TrimEnd(s))
    decreases |s|
  {
    if s != [] {
      LowerKeepsSpace(s[|s| - 1]);
      assert Lower(s)[..|s| - 1] == Lower(s[..|s| - 1]);
      TrimEndLower(s[..|s| - 1]);
    }
  }

  lemma TrimLower(s: string)
    ensures Trim(Lower(s)) == Lower(Trim(s))
  {
    TrimStartLower(s);
    TrimEndLower(TrimStart(s));
  }

  /** Lowering is idempotent, so a lowered query lowers to itself. */
  lemma LowerIdempotent(s: string)
    ensures Lower(Lower(s)) == Lower(s)
  {
  }
}
