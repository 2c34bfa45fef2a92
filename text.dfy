/**
 * The string operations the screens use: `toLowerCase`, `toUpperCase`,
 * `includes` and `split(' ')`. Case mapping covers ASCII and the basic
 * Cyrillic block (U+0400–U+045F), the alphabets the application's data uses.
 */
module Text {
  import Lists

  function LowerChar(c: char): (r: char)
    ensures 'A' <= c <= 'Z' ==> r as int == c as int + 32
    ensures 'Ѐ' <= c <= 'Џ' ==> r as int == c as int + 80
    ensures 'А' <= c <= 'Я' ==> r as int == c as int + 32
    ensures !('A' <= c <= 'Z') && !('Ѐ' <= c <= 'Я') ==> r == c
  {
    if 'A' <= c <= 'Z' || 'А' <= c <= 'Я' then (c as int + 32) as char
    else if 'Ѐ' <= c <= 'Џ' then (c as int + 80) as char
    else c
  }

  function UpperChar(c: char): (r: char)
    ensures 'a' <= c <= 'z' ==> r as int == c as int - 32
    ensures 'ѐ' <= c <= 'џ' ==> r as int == c as int - 80
    ensures 'а' <= c <= 'я' ==> r as int == c as int - 32
    ensures !('a' <= c <= 'z') && !('а' <= c <= 'џ') ==> r == c
  {
    if 'a' <= c <= 'z' || 'а' <= c <= 'я' then (c as int - 32) as char
    else if 'ѐ' <= c <= 'џ' then (c as int - 80) as char
    else c
  }

  /** `s.toLowerCase()`, character by character. */
  function ToLower(s: string): (r: string)
    ensures |r| == |s| && forall i :: 0 <= i < |s| ==> r[i] == LowerChar(s[i])
  {
    if s == [] then [] else [LowerChar(s[0])] + ToLower(s[1..])
  }

  /** `s.toUpperCase()`, character by character. */
  function ToUpper(s: string): (r: string)
    ensures |r| == |s| && forall i :: 0 <= i < |s| ==> r[i] == UpperChar(s[i])
  {
    if s == [] then [] else [UpperChar(s[0])] + ToUpper(s[1..])
  }

  /** `hay.includes(needle)`: `needle` occurs in `hay` at some position. */
  predicate Contains(hay: string, needle: string)
  {
    needle <= hay || (hay != [] && Contains(hay[1..], needle))
  }

  /** `needle` occurs in `hay` starting at index `i`. */
  predicate OccursAt(hay: string, needle: string, i: int) {
    0 <= i && i + |needle| <= |hay| && hay[i..i + |needle|] == needle
  }

  /** `includes` succeeds exactly when `needle` occurs at some index of `hay`. */
  lemma ContainsAt(hay: string, needle: string)
    ensures Contains(hay, needle) <==> exists i :: OccursAt(hay, needle, i)
  {
    if Contains(hay, needle) {
      var i := ContainsWitness(hay, needle);
    }
    if exists i :: OccursAt(hay, needle, i) {
      var i :| OccursAt(hay, needle, i);
      OccursContains(hay, needle, i);
    }
  }

  /** Where a successful `includes` found its needle. */
  lemma {:induction false} ContainsWitness(hay: string, needle: string) returns (i: int)
    requires Contains(hay, needle)
    ensures OccursAt(hay, needle, i)
    decreases |hay|
  {
    if needle <= hay {
      i := 0;
      assert hay[0..|needle|] == needle;
    } else {
      var j := ContainsWitness(hay[1..], needle);
      i := j + 1;
      SliceOfTail(hay, j, |needle|);
    }
  }

  /** A window of `hay[1..]` is the window one place further along in `hay`. */
  lemma SliceOfTail(hay: string, j: int, n: int)
    requires hay != [] && 0 <= j && 0 <= n && j + n <= |hay| - 1
    ensures hay[1..][j..j + n] == hay[j + 1..j + 1 + n]
  {
    var window, shifted := hay[1..][j..j + n], hay[j + 1..j + 1 + n];
    forall m | 0 <= m < n ensures window[m] == shifted[m] {
      assert window[m] == hay[j + 1 + m];
    }
    assert window == shifted;
  }

  /** An occurrence anywhere makes `includes` succeed. */
  lemma {:induction false} OccursContains(hay: string, needle: string, i: int)
    requires OccursAt(hay, needle, i)
    ensures Contains(hay, needle)
    decreases i
  {
    if i == 0 {
      assert needle == hay[..|needle|];
    } else {
      SliceOfTail(hay, i - 1, |needle|);
      OccursContains(hay[1..], needle, i - 1);
    }
  }

  /** `s.split(' ')`: the pieces between spaces, empty pieces included; never empty. */
  function Split(s: string): (words: seq<string>)
    ensures |words| >= 1
    ensures forall w :: w in words ==> ' ' !in w
  {
    if s == [] then [""]
    else
      var rest := Split(s[1..]);
      if s[0] == ' ' then [""] + rest
      else [[s[0]] + rest[0]] + rest[1..]
  }

  /** The inverse of `Split` used by `JoinSplit`: the pieces with one space between neighbours. */
  function Join(words: seq<string>): (s: string)
    requires |words| >= 1
    ensures |s| >= |words| - 1
  {
    if |words| == 1 then words[0] else words[0] + " " + Join(words[1..])
  }

  /** Splitting at spaces loses nothing: joining the pieces with a space gives the text back. */
  lemma {:induction false} JoinSplit(s: string)
    ensures Join(Split(s)) == s
  {
    if s != [] {
      var rest := Split(s[1..]);
      JoinSplit(s[1..]);
      if s[0] == ' ' {
        assert Split(s) == [""] + rest;
        assert (Split(s))[1..] == rest;
        assert s == [s[0]] + s[1..];
      } else if |rest| == 1 {
        assert Split(s) == [[s[0]] + rest[0]];
        assert s == [s[0]] + s[1..];
      } else {
        var words := Split(s);
        assert words == [[s[0]] + rest[0]] + rest[1..];
        assert words[1..] == rest[1..];
        assert Join(rest) == rest[0] + " " + Join(rest[1..]);
        assert s == [s[0]] + s[1..];
      }
    }
  }

  /** `words.map(w => w[0]).join('')`: `w[0]` of an empty word is `undefined`, which `join` writes as nothing. */
  function FirstChars(words: seq<string>): string
  {
    if words == [] then ""
    else (if words[0] == "" then "" else [words[0][0]]) + FirstChars(words[1..])
  }

  /**
   * The characters that begin a word, found by scanning: a non-space character
   * at the start or right after a space. `atStart` says whether the scan is at
   * the beginning of a word.
   */
  function WordStarts(s: string, atStart: bool): string
  {
    if s == [] then ""
    else if s[0] == ' ' then WordStarts(s[1..], true)
    else (if atStart then [s[0]] else "") + WordStarts(s[1..], false)
  }

  lemma FirstCharsAppend(a: seq<string>, b: seq<string>)
    ensures FirstChars(a + b) == FirstChars(a) + FirstChars(b)
  {
    if a != [] {
      assert (a + b)[1..] == a[1..] + b;
      FirstCharsAppend(a[1..], b);
    } else {
      assert a + b == b;
    }
  }

  /** Splitting then taking first characters is the same as scanning for word starts. */
  lemma {:induction false} SplitFirstChars(s: string)
    ensures FirstChars(Split(s)) == WordStarts(s, true)
    ensures FirstChars(Split(s)[1..]) == WordStarts(s, false)
    decreases |s|
  {
    if s != [] {
      SplitFirstChars(s[1..]);
      var rest := Split(s[1..]);
      FirstCharsAppend([rest[0]], rest[1..]);
      assert rest == [rest[0]] + rest[1..];
      if s[0] == ' ' {
        assert Split(s) == [""] + rest;
        assert Split(s)[1..] == rest;
        FirstCharsAppend([""], rest);
      } else {
        var w := [s[0]] + rest[0];
        assert Split(s) == [w] + rest[1..];
        assert Split(s)[1..] == rest[1..];
        FirstCharsAppend([w], rest[1..]);
        assert FirstChars([w]) == [s[0]];
        if rest[0] == "" {
          assert FirstChars([rest[0]]) == "";
        } else {
          // a non-empty first piece of s[1..] means s[1] is not a space, so the scan skips it too
          assert FirstChars([rest[0]]) == [rest[0][0]];
        }
      }
    }
  }

  /** `points.slice(0, n).map(p => p.slice(0, width) + "...")`: short badges for the first points. */
  function Badges(points: seq<string>, n: nat, width: nat): (r: seq<string>)
    ensures |r| == if |points| < n then |points| else n
    ensures forall i :: 0 <= i < |r| ==> r[i] == Lists.Take(points[i], width) + "..."
    ensures forall i :: 0 <= i < |r| ==> |r[i]| <= width + 3 && r[i][..|r[i]| - 3] <= points[i]
  {
    var shown := Lists.Take(points, n);
    seq(|shown|, i requires 0 <= i < |shown| => Lists.Take(shown[i], width) + "...")
  }
}
