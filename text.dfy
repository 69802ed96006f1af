/** The three string operations the project feed relies on: lower-casing,
    substring search (`includes`) and joining a list of strings. */
module Text {

  /** Lower-cases one character. Only the ASCII letters A-Z are mapped. */
  function LowerChar(c: char): (d: char)
    ensures 'A' <= c <= 'Z' ==> 'a' <= d <= 'z' && d as int == c as int + 32
    ensures !('A' <= c <= 'Z') ==> d == c
  {
    if 'A' <= c <= 'Z' then (c as int + 32) as char else c
  }

  predicate NoUpper(s: string) {
    forall i :: 0 <= i < |s| ==> !('A' <= s[i] <= 'Z')
  }

  /** `toLowerCase`, character by character. */
  function Lower(s: string): (r: string)
    ensures |r| == |s|
    ensures NoUpper(r)
  {
    if s == [] then [] else [LowerChar(s[0])] + Lower(s[1..])
  }

  /** Each character of the result is the lower-cased character at the same place. */
  lemma {:induction false} LowerAt(s: string, i: nat)
    requires i < |s|
    ensures Lower(s)[i] == LowerChar(s[i])
  {
    if i > 0 {
      LowerAt(s[1..], i - 1);
    }
  }

  /** Lower-casing twice is lower-casing once. */
  lemma LowerIdempotent(s: string)
    ensures Lower(Lower(s)) == Lower(s)
  {
    assert Lower(Lower(s)) == Lower(s) by {
      forall i | 0 <= i < |s| ensures Lower(Lower(s))[i] == Lower(s)[i] {
        LowerAt(s, i);
        LowerAt(Lower(s), i);
      }
    }
  }

  /** Lower-casing the parts separately is lower-casing the whole. */
  lemma {:induction false} LowerAppend(a: string, b: string)
    ensures Lower(a + b) == Lower(a) + Lower(b)
  {
    if a != [] {
      assert (a + b)[1..] == a[1..] + b;
      LowerAppend(a[1..], b);
    } else {
      assert a + b == b;
    }
  }

  /** The substring `k` starts at position `i` of `s`. */
  predicate OccursAt(s: string, k: string, i: int) {
    0 <= i && i + |k| <= |s| && s[i..i + |k|] == k
  }

  /** `s.includes(k)`: whether `k` is a substring of `s`. */
  predicate Includes(s: string, k: string)
    decreases |s|
  {
    |k| <= |s| && (s[..|k|] == k || (s != [] && Includes(s[1..], k)))
  }

  /** `Includes` holds exactly when the keyword occurs at some position. */
  lemma {:induction false} IncludesIff(s: string, k: string)
    ensures Includes(s, k) <==> exists i :: OccursAt(s, k, i)
    decreases |s|
  {
    if |k| <= |s| && s[..|k|] != k && s != [] {
      IncludesIff(s[1..], k);
      if Includes(s[1..], k) {
        var j :| OccursAt(s[1..], k, j);
        assert s[j + 1..j + 1 + |k|] == s[1..][j..j + |k|];
        assert OccursAt(s, k, j + 1);
      } else if i :| OccursAt(s, k, i) {
        assert i != 0;
        assert s[1..][i - 1..i - 1 + |k|] == s[i..i + |k|];
        assert OccursAt(s[1..], k, i - 1);
        assert false;
      }
    } else if |k| <= |s| && s[..|k|] == k {
      assert OccursAt(s, k, 0);
    }
  }

  /** An occurrence in `a` is an occurrence in any string that embeds `a`. */
  lemma IncludesWithin(pre: string, a: string, post: string, k: string)
    requires Includes(a, k)
    ensures Includes(pre + a + post, k)
  {
    IncludesIff(a, k);
    var i :| OccursAt(a, k, i);
    var s := pre + a + post;
    assert s[|pre| + i..|pre| + i + |k|] == a[i..i + |k|];
    assert OccursAt(s, k, |pre| + i);
    IncludesIff(s, k);
  }

  /** A keyword with a character that does not occur in `s` is not included. */
  lemma AbsentChar(s: string, k: string, c: char)
    requires c in k && c !in s
    ensures !Includes(s, k)
  {
    var m :| 0 <= m < |k| && k[m] == c;
    forall i | 0 <= i && i + |k| <= |s| ensures !OccursAt(s, k, i) {
      assert s[i..i + |k|][m] == s[i + m];
    }
    IncludesIff(s, k);
  }

  /** A two-letter keyword is not found when its first letter occurs once,
      and is followed there by some other letter than its second. */
  lemma PairAbsent(pre: string, post: string, a: char, b: char)
    requires a !in pre && a !in post && (post == [] || post[0] != b)
    ensures !Includes(pre + [a] + post, [a, b])
  {
    var s := pre + [a] + post;
    forall i | 0 <= i && i + 2 <= |s| ensures !OccursAt(s, [a, b], i) {
      assert s[i..i + 2] == [s[i], s[i + 1]];
      if i < |pre| {
        assert s[i] == pre[i];
      } else if i > |pre| {
        assert s[i] == post[i - |pre| - 1];
      } else {
        assert s[i + 1] == post[0];
      }
    }
    IncludesIff(s, [a, b]);
  }

  /** `list.join(sep)`. */
  function Join(parts: seq<string>, sep: string): (r: string)
    ensures parts == [] ==> r == []
    ensures |parts| == 1 ==> r == parts[0]
  {
    if parts == [] then []
    else if |parts| == 1 then parts[0]
    else parts[0] + sep + Join(parts[1..], sep)
  }

  /** Every joined part is a substring of the joined string. */
  lemma {:induction false} JoinContainsParts(parts: seq<string>, sep: string, j: nat, k: string)
    requires j < |parts| && Includes(parts[j], k)
    ensures Includes(Join(parts, sep), k)
  {
    if |parts| == 1 {
    } else if j == 0 {
      IncludesWithin([], parts[0], sep + Join(parts[1..], sep), k);
      assert [] + parts[0] + (sep + Join(parts[1..], sep)) == Join(parts, sep);
    } else {
      JoinContainsParts(parts[1..], sep, j - 1, k);
      IncludesWithin(parts[0] + sep, Join(parts[1..], sep), [], k);
      assert parts[0] + sep + Join(parts[1..], sep) + [] == Join(parts, sep);
    }
  }
}
