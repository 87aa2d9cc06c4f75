/**
 * `String.prototype.split` with a non-empty string separator, and its
 * inverse `join`. The scan is left to right and cuts at the leftmost
 * occurrence each time, as JavaScript does, so "a\n\n\nb" splits on
 * "\n\n" into "a" and "\nb".
 */
module Text {

  /** `sep` occurs in `s` starting at position `i`. */
  predicate OccursAt(s: string, sep: string, i: int)
  {
    0 <= i && i + |sep| <= |s| && s[i..i + |sep|] == sep
  }

  predicate Contains(s: string, sep: string)
  {
    exists i | 0 <= i <= |s| - |sep| :: OccursAt(s, sep, i)
  }

  /** `s.split(sep)`: never empty; the first piece is a prefix of `s`. */
  function Split(s: string, sep: string): (r: seq<string>)
    requires |sep| > 0
    ensures |r| > 0
    ensures |r[0]| <= |s| && r[0] == s[..|r[0]|]
    decreases |s|
  {
    if |s| < |sep| then [s]
    else if s[..|sep|] == sep then [""] + Split(s[|sep|..], sep)
    else
      var rest := Split(s[1..], sep);
      [[s[0]] + rest[0]] + rest[1..]
  }

  /** `pieces.join(sep)`. */
  function Join(pieces: seq<string>, sep: string): string
  {
    if pieces == [] then ""
    else if |pieces| == 1 then pieces[0]
    else pieces[0] + sep + Join(pieces[1..], sep)
  }

  /** Joining pieces whose first piece gains a leading character gains that character. */
  lemma JoinPrepend(c: char, pieces: seq<string>, sep: string)
    requires |pieces| > 0
    ensures Join([[c] + pieces[0]] + pieces[1..], sep) == [c] + Join(pieces, sep)
  {
    var r := [[c] + pieces[0]] + pieces[1..];
    assert r[1..] == pieces[1..];
  }

  /** Joining the pieces with the separator gives back the original text. */
  lemma {:induction false} JoinSplit(s: string, sep: string)
    requires |sep| > 0
    ensures Join(Split(s, sep), sep) == s
    decreases |s|
  {
    if |s| < |sep| {
    } else if s[..|sep|] == sep {
      var tail := Split(s[|sep|..], sep);
      JoinSplit(s[|sep|..], sep);
      assert Join([""] + tail, sep) == "" + sep + Join(tail, sep);
      assert s == s[..|sep|] + s[|sep|..];
    } else {
      JoinSplit(s[1..], sep);
      JoinPrepend(s[0], Split(s[1..], sep), sep);
      assert s == [s[0]] + s[1..];
    }
  }

  /** An occurrence inside a prefix is an occurrence in the whole text. */
  lemma OccursAtPrefix(s: string, p: string, sep: string, i: int)
    requires |p| <= |s| && p == s[..|p|]
    requires OccursAt(p, sep, i)
    ensures OccursAt(s, sep, i)
  {
    assert s[i..i + |sep|] == p[i..i + |sep|];
  }

  /** No piece contains the separator. */
  lemma {:induction false} SplitPiecesFree(s: string, sep: string)
    requires |sep| > 0
    ensures forall k :: 0 <= k < |Split(s, sep)| ==> !Contains(Split(s, sep)[k], sep)
    decreases |s|
  {
    var r := Split(s, sep);
    if |s| < |sep| {
      assert r == [s];
      forall i | OccursAt(s, sep, i) ensures false { }
    } else if s[..|sep|] == sep {
      var tail := Split(s[|sep|..], sep);
      SplitPiecesFree(s[|sep|..], sep);
      assert r == [""] + tail;
      forall k | 0 <= k < |r| ensures !Contains(r[k], sep) {
        if k == 0 {
          forall i | OccursAt("", sep, i) ensures false { }
        } else {
          assert r[k] == tail[k - 1];
        }
      }
    } else {
      var rest := Split(s[1..], sep);
      SplitPiecesFree(s[1..], sep);
      var head := [s[0]] + rest[0];
      assert r == [head] + rest[1..];
      assert head == s[..|head|];
      forall k | 0 <= k < |r| ensures !Contains(r[k], sep) {
        if k == 0 {
          forall i | OccursAt(head, sep, i) ensures false {
            if i == 0 {
              OccursAtPrefix(s, head, sep, 0);
            } else {
              assert head[i..i + |sep|] == rest[0][i - 1..i - 1 + |sep|];
              assert OccursAt(rest[0], sep, i - 1);
            }
          }
        } else {
          assert r[k] == rest[k];
        }
      }
    }
  }

  /** The text splits into more than one piece exactly when it contains the separator. */
  lemma {:induction false} SplitWithoutSeparator(s: string, sep: string)
    requires |sep| > 0
    ensures !Contains(s, sep) <==> Split(s, sep) == [s]
  {
    JoinSplit(s, sep);
    SplitPiecesFree(s, sep);
    var r := Split(s, sep);
    if |r| >= 2 {
      assert Join(r, sep) == r[0] + sep + Join(r[1..], sep);
      assert OccursAt(s, sep, |r[0]|) by {
        assert s[|r[0]|..|r[0]| + |sep|] == sep;
      }
    } else {
      assert r == [r[0]];
      assert Join(r, sep) == r[0];
    }
  }

  /** A one-character separator occurs exactly where that character does. */
  lemma ContainsChar(s: string, c: char)
    ensures Contains(s, [c]) <==> c in s
  {
    if c in s {
      var i :| 0 <= i < |s| && s[i] == c;
      assert s[i..i + 1] == [c];
      assert OccursAt(s, [c], i);
    }
    if Contains(s, [c]) {
      var i :| 0 <= i <= |s| - 1 && OccursAt(s, [c], i);
      assert s[i] == s[i..i + 1][0];
    }
  }

  /** Each piece is at most as long as the joined text, and shorter when there are several. */
  lemma {:induction false} JoinPieceLength(pieces: seq<string>, sep: string, k: int)
    requires 0 <= k < |pieces|
    ensures |pieces[k]| <= |Join(pieces, sep)|
    ensures |pieces| >= 2 ==> |pieces[k]| + |sep| <= |Join(pieces, sep)|
  {
    if |pieces| >= 2 && k > 0 {
      JoinPieceLength(pieces[1..], sep, k - 1);
    }
  }

  /** A piece of a split is no longer than the text, and shorter when the text holds the separator. */
  lemma SplitPieceLength(s: string, sep: string, k: int)
    requires |sep| > 0 && 0 <= k < |Split(s, sep)|
    ensures |Split(s, sep)[k]| <= |s|
    ensures Contains(s, sep) ==> |Split(s, sep)[k]| < |s|
  {
    JoinSplit(s, sep);
    SplitWithoutSeparator(s, sep);
    JoinPieceLength(Split(s, sep), sep, k);
  }

  /** Text before the first separator is the first piece. */
  lemma {:induction false} SplitAfterPiece(a: string, b: string, sep: char)
    requires sep !in a
    ensures Split(a + [sep] + b, [sep]) == [a] + Split(b, [sep])
  {
    var s := a + [sep] + b;
    if a == [] {
      assert s[..1] == [sep] && s[1..] == b;
    } else {
      assert s[0] == a[0] && s[..1] == [a[0]];
      assert s[..1] != [sep];
      assert s[1..] == a[1..] + [sep] + b;
      SplitAfterPiece(a[1..], b, sep);
      assert [a[0]] + a[1..] == a;
    }
  }
}
