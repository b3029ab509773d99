/** Splitting a string at a separator character, and the facts about the
    pieces that the e-mail grammar needs. */
module Text {

  /** A decimal digit character. */
  predicate IsDigit(c: char) { '0' <= c <= '9' }

  /** The pieces of s between occurrences of sep (empty pieces kept), so a
      string with n separators has n + 1 pieces. */
  function Split(s: string, sep: char): (parts: seq<string>)
    ensures |parts| >= 1
    decreases |s|
  {
    if s == [] then [[]]
    else
      var rest := Split(s[1..], sep);
      if s[0] == sep then [[]] + rest
      else [[s[0]] + rest[0]] + rest[1..]
  }

  /** Number of occurrences of c in s. */
  function Count(s: string, c: char): (n: nat)
    ensures n <= |s|
  {
    if s == [] then 0 else (if s[0] == c then 1 else 0) + Count(s[1..], c)
  }

  /** Position of the first c in s, or |s| when there is none. */
  function IndexOf(s: string, c: char): (k: nat)
    ensures k <= |s|
    ensures k < |s| ==> s[k] == c
    ensures forall i :: 0 <= i < k ==> s[i] != c
  {
    if s == [] then 0 else if s[0] == c then 0 else 1 + IndexOf(s[1..], c)
  }

  /** No piece is empty, stated on the string: it is non-empty, does not
      start or end with sep, and has no two adjacent seps. */
  predicate NoStraySeparators(s: string, sep: char)
  {
    && |s| > 0
    && s[0] != sep
    && s[|s| - 1] != sep
    && NoDoubledSeparator(s, sep)
  }

  /** No two adjacent seps. */
  predicate NoDoubledSeparator(s: string, sep: char)
  {
    forall i :: 0 <= i < |s| - 1 ==> !(s[i] == sep && s[i + 1] == sep)
  }

  /** A string has no doubled sep exactly when it does not start with two
      and its tail has none. */
  lemma DoubledSeparatorShift(s: string, sep: char)
    requires s != []
    ensures NoDoubledSeparator(s, sep) <==>
              !(|s| >= 2 && s[0] == sep && s[1] == sep) && NoDoubledSeparator(s[1..], sep)
  {
    var t := s[1..];
    if NoDoubledSeparator(s, sep) {
      forall i | 0 <= i < |t| - 1 ensures !(t[i] == sep && t[i + 1] == sep) {
        assert t[i] == s[i + 1] && t[i + 1] == s[i + 2];
      }
    }
    if !(|s| >= 2 && s[0] == sep && s[1] == sep) && NoDoubledSeparator(t, sep) {
      forall i | 0 < i < |s| - 1 ensures !(s[i] == sep && s[i + 1] == sep) {
        assert s[i] == t[i - 1] && s[i + 1] == t[i];
      }
    }
  }

  /** Every piece after the first is non-empty. */
  predicate TailPiecesNonEmpty(parts: seq<string>)
  {
    forall i :: 1 <= i < |parts| ==> |parts[i]| > 0
  }

  predicate AllPiecesNonEmpty(parts: seq<string>)
  {
    forall i :: 0 <= i < |parts| ==> |parts[i]| > 0
  }

  lemma {:induction false} SplitCount(s: string, sep: char)
    ensures |Split(s, sep)| == Count(s, sep) + 1
    decreases |s|
  {
    if s != [] {
      SplitCount(s[1..], sep);
    }
  }

  /** Splitting separates the text before the first sep from the split of
      the text after it. */
  lemma {:induction false} SplitAtFirst(s: string, sep: char)
    ensures IndexOf(s, sep) == |s| ==> Split(s, sep) == [s]
    ensures IndexOf(s, sep) < |s| ==>
              Split(s, sep) == [s[..IndexOf(s, sep)]] + Split(s[IndexOf(s, sep) + 1..], sep)
    decreases |s|
  {
    if s != [] && s[0] != sep {
      var t := s[1..];
      SplitAtFirst(t, sep);
      var k := IndexOf(s, sep);
      assert k == 1 + IndexOf(t, sep);
      if k == |s| {
        assert [s[0]] + t == s;
      } else {
        assert [s[0]] + t[..k - 1] == s[..k];
        assert t[k..] == s[k + 1..];
      }
    }
  }

  /** The last piece is a suffix of s; when there are several pieces it is
      preceded by sep, and when there is one it is all of s. */
  lemma {:induction false} SplitLast(s: string, sep: char)
    ensures var parts := Split(s, sep); var t := parts[|parts| - 1];
      && |t| <= |s|
      && s[|s| - |t|..] == t
      && (|parts| == 1 ==> t == s)
      && (|parts| > 1 ==> |t| < |s| && s[|s| - |t| - 1] == sep)
    decreases |s|
  {
    if s != [] {
      var rest := Split(s[1..], sep);
      SplitLast(s[1..], sep);
      var t := rest[|rest| - 1];
      assert s[1..][|s| - 1 - |t|..] == s[|s| - |t|..];
      if s[0] != sep && |rest| == 1 {
        assert [s[0]] + s[1..] == s;
      }
    }
  }

  /** Every piece but the first is non-empty exactly when the string has no
      two adjacent seps and does not end in one. */
  lemma {:induction false} TailPiecesCharacterized(s: string, sep: char)
    ensures TailPiecesNonEmpty(Split(s, sep)) <==>
              (|s| > 0 ==> s[|s| - 1] != sep) && NoDoubledSeparator(s, sep)
    decreases |s|
  {
    if s != [] {
      var t := s[1..];
      var rest := Split(t, sep);
      TailPiecesCharacterized(t, sep);
      DoubledSeparatorShift(s, sep);
      var parts := Split(s, sep);
      if s[0] == sep {
        assert parts == [[]] + rest;
        assert TailPiecesNonEmpty(parts) <==> AllPiecesNonEmpty(rest) by {
          forall i | 0 <= i < |rest| ensures parts[i + 1] == rest[i] { }
        }
        SplitAtFirst(t, sep);
        assert AllPiecesNonEmpty(rest) <==> |rest[0]| > 0 && TailPiecesNonEmpty(rest);
        assert |rest[0]| > 0 <==> |t| > 0 && t[0] != sep;
        if |t| > 0 {
          assert s[|s| - 1] == t[|t| - 1];
        }
      } else {
        assert parts == [[s[0]] + rest[0]] + rest[1..];
        assert TailPiecesNonEmpty(parts) <==> TailPiecesNonEmpty(rest) by {
          forall i | 1 <= i < |rest| ensures parts[i] == rest[i] { }
        }
        if |t| > 0 {
          assert s[|s| - 1] == t[|t| - 1];
        }
      }
    }
  }

  /** Every piece is non-empty exactly when there are no stray separators. */
  lemma AllPiecesCharacterized(s: string, sep: char)
    ensures AllPiecesNonEmpty(Split(s, sep)) <==> NoStraySeparators(s, sep)
  {
    var parts := Split(s, sep);
    TailPiecesCharacterized(s, sep);
    SplitAtFirst(s, sep);
    assert AllPiecesNonEmpty(parts) <==> |parts[0]| > 0 && TailPiecesNonEmpty(parts);
    assert |parts[0]| > 0 <==> |s| > 0 && s[0] != sep;
  }

  /** Every character of every piece satisfies ok. */
  predicate PiecesOver(parts: seq<string>, ok: char -> bool)
  {
    forall i, j :: 0 <= i < |parts| && 0 <= j < |parts[i]| ==> ok(parts[i][j])
  }

  /** The pieces are made of ok characters exactly when every character of s
      is ok or is the separator. */
  lemma {:induction false} SplitChars(s: string, sep: char, ok: char -> bool)
    ensures PiecesOver(Split(s, sep), ok) <==> forall k :: 0 <= k < |s| ==> s[k] == sep || ok(s[k])
    decreases |s|
  {
    if s != [] {
      var t := s[1..];
      var rest := Split(t, sep);
      SplitChars(t, sep, ok);
      var parts := Split(s, sep);
      assert (forall k :: 0 <= k < |s| ==> s[k] == sep || ok(s[k])) <==>
             (s[0] == sep || ok(s[0])) && (forall k :: 0 <= k < |t| ==> t[k] == sep || ok(t[k])) by {
        forall k | 0 < k < |s| ensures s[k] == t[k - 1] { }
      }
      if s[0] == sep {
        assert parts == [[]] + rest;
        assert PiecesOver(parts, ok) <==> PiecesOver(rest, ok) by {
          forall i | 0 <= i < |rest| ensures parts[i + 1] == rest[i] { }
        }
      } else {
        var first := [s[0]] + rest[0];
        assert parts == [first] + rest[1..];
        if PiecesOver(parts, ok) {
          assert ok(parts[0][0]);
          forall i, j | 0 <= i < |rest| && 0 <= j < |rest[i]| ensures ok(rest[i][j]) {
            if i == 0 {
              assert rest[0][j] == parts[0][j + 1];
            } else {
              assert rest[i] == parts[i];
            }
          }
        }
        if ok(s[0]) && PiecesOver(rest, ok) {
          forall i, j | 0 <= i < |parts| && 0 <= j < |parts[i]| ensures ok(parts[i][j]) {
            if i == 0 {
              if j > 0 {
                assert parts[0][j] == rest[0][j - 1];
              }
            } else {
              assert parts[i] == rest[i];
            }
          }
        }
      }
    }
  }
}
