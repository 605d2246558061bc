/** The Python string operations the migration scripts use: `str.replace` with a
    one-character pattern, `str.strip()`, `sep.join(items)`; and the reading of the
    inside of a double-quoted SQL literal, which is what the escaping targets. */
module PyStrings {
  import opened Outcomes

  /** `s.replace(c, r)` for a one-character pattern `c`. */
  function Replace(s: string, c: char, r: string): string
  {
    if s == [] then [] else (if s[0] == c then r else [s[0]]) + Replace(s[1..], c, r)
  }

  lemma {:induction false} ReplaceAppend(a: string, b: string, c: char, r: string)
    ensures Replace(a + b, c, r) == Replace(a, c, r) + Replace(b, c, r)
  {
    if a == [] {
      assert a + b == b;
    } else {
      assert (a + b)[1..] == a[1..] + b;
      ReplaceAppend(a[1..], b, c, r);
    }
  }

  /** Text without the pattern is left as it is. */
  lemma {:induction false} ReplaceAbsent(s: string, c: char, r: string)
    requires c !in s
    ensures Replace(s, c, r) == s
  {
    if s != [] {
      ReplaceAbsent(s[1..], c, r);
    }
  }

  /** Every occurrence of `c` is gone after the replacement, unless `r` brings it back. */
  lemma {:induction false} ReplaceRemoves(s: string, c: char, r: string)
    requires c !in r
    ensures c !in Replace(s, c, r)
  {
    if s != [] {
      ReplaceRemoves(s[1..], c, r);
    }
  }

  /** Reads the inside of a double-quoted SQL literal: each `""` stands for one `"`.
      A lone `"` would end the literal early, so such text has no reading. */
  function CollapseQuotes(e: string): Option<string>
  {
    if e == [] then Some([])
    else if e[0] == '"' then
      if |e| >= 2 && e[1] == '"' then
        match CollapseQuotes(e[2..])
        case Some(t) => Some(['"'] + t)
        case None => None
      else None
    else
      match CollapseQuotes(e[1..])
      case Some(t) => Some([e[0]] + t)
      case None => None
  }

  /** Python's `str.isspace()` for one character: the Unicode white space. */
  predicate IsSpace(c: char)
  {
    var n := c as int;
    (9 <= n <= 13) || (0x1C <= n <= 0x20) || n == 0x85 || n == 0xA0 || n == 0x1680
    || (0x2000 <= n <= 0x200A) || n == 0x2028 || n == 0x2029 || n == 0x202F
    || n == 0x205F || n == 0x3000
  }

  function LStrip(s: string): string
  {
    if s != [] && IsSpace(s[0]) then LStrip(s[1..]) else s
  }

  function RStrip(s: string): string
  {
    if s != [] && IsSpace(s[|s| - 1]) then RStrip(s[..|s| - 1]) else s
  }

  /** `s.strip()`: white space removed from both ends. */
  function Strip(s: string): string
  {
    RStrip(LStrip(s))
  }

  lemma {:induction false} LStripSpec(s: string)
    ensures |LStrip(s)| <= |s| && LStrip(s) == s[|s| - |LStrip(s)|..]
    ensures forall k :: 0 <= k < |s| - |LStrip(s)| ==> IsSpace(s[k])
    ensures LStrip(s) != [] ==> !IsSpace(LStrip(s)[0])
  {
    if s != [] && IsSpace(s[0]) {
      var rest := s[1..];
      LStripSpec(rest);
      var l := LStrip(rest);
      assert LStrip(s) == l;
      assert rest[|rest| - |l|..] == s[|s| - |l|..];
      forall k | 0 <= k < |s| - |l|
        ensures IsSpace(s[k])
      {
        if k > 0 {
          assert s[k] == rest[k - 1];
        }
      }
    }
  }

  lemma {:induction false} RStripSpec(s: string)
    ensures |RStrip(s)| <= |s| && RStrip(s) == s[..|RStrip(s)|]
    ensures forall k :: |RStrip(s)| <= k < |s| ==> IsSpace(s[k])
    ensures RStrip(s) != [] ==> !IsSpace(RStrip(s)[|RStrip(s)| - 1])
  {
    if s != [] && IsSpace(s[|s| - 1]) {
      var init := s[..|s| - 1];
      RStripSpec(init);
      var r := RStrip(init);
      assert RStrip(s) == r;
      assert init[..|r|] == s[..|r|];
      forall k | |r| <= k < |s|
        ensures IsSpace(s[k])
      {
        if k < |s| - 1 {
          assert s[k] == init[k];
        }
      }
    }
  }

  /** `s.strip()` is the slice of `s` left when white space is cut from both ends:
      only white space is removed, and what is left neither starts nor ends with it. */
  lemma StripSpec(s: string)
    ensures var t := Strip(s); var i := |s| - |LStrip(s)|;
      && 0 <= i && i + |t| <= |s| && t == s[i..i + |t|]
      && (forall k :: 0 <= k < i ==> IsSpace(s[k]))
      && (forall k :: i + |t| <= k < |s| ==> IsSpace(s[k]))
      && (t != [] ==> !IsSpace(t[0]) && !IsSpace(t[|t| - 1]))
  {
    var l := LStrip(s);
    LStripSpec(s);
    RStripSpec(l);
    var i := |s| - |l|;
    var t := Strip(s);
    forall k | i + |t| <= k < |s|
      ensures IsSpace(s[k])
    {
      assert s[k] == l[k - i];
    }
  }

  /** `s.strip()` is empty exactly when `s` is all white space. */
  lemma StripEmpty(s: string)
    ensures Strip(s) == [] <==> forall k :: 0 <= k < |s| ==> IsSpace(s[k])
  {
    StripSpec(s);
    var i := |s| - |LStrip(s)|;
    var t := Strip(s);
    if t != [] {
      assert t[0] == s[i];
    } else {
      forall k | 0 <= k < |s|
        ensures IsSpace(s[k])
      {
        if k >= i { assert i + |t| <= k; }
      }
    }
  }

  /** `sep.join(xs)`. */
  function Join(xs: seq<string>, sep: string): string
  {
    if |xs| == 0 then ""
    else if |xs| == 1 then xs[0]
    else Join(xs[..|xs| - 1], sep) + sep + xs[|xs| - 1]
  }

  /** Joining a longer list puts the separator after the first item. */
  lemma {:induction false} JoinCons(x: string, ys: seq<string>, sep: string)
    requires |ys| >= 1
    ensures Join([x] + ys, sep) == x + sep + Join(ys, sep)
  {
    var zs := [x] + ys;
    if |ys| == 1 {
      assert zs[..1] == [x];
    } else {
      assert zs[..|zs| - 1] == [x] + ys[..|ys| - 1];
      JoinCons(x, ys[..|ys| - 1], sep);
    }
  }
}
