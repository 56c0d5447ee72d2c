/** When `edit_file` edits, when it refuses and what it says then, in terms of where the old text stands. */
module EditMatches {
  import opened EditFile

  predicate Occurs(s: string, pattern: string, i: int) {
    0 <= i && i + |pattern| <= |s| && s[i..i + |pattern|] == pattern
  }

  /** Places where the pattern stands, none of them overlapping. */
  ghost predicate Apart(s: string, pattern: string, places: seq<int>) {
    && (forall a :: 0 <= a < |places| ==> Occurs(s, pattern, places[a]))
    && forall a, b :: 0 <= a < b < |places| ==> places[a] + |pattern| <= places[b]
  }

  lemma OccursBehind(s: string, pattern: string, n: nat, i: int)
    requires n <= |s|
    ensures Occurs(s[n..], pattern, i) <==> i >= 0 && Occurs(s, pattern, n + i)
  {
    if 0 <= i && n + i + |pattern| <= |s| {
      assert s[n..][i..i + |pattern|] == s[n + i..n + i + |pattern|];
    }
  }

  function Shifted(places: seq<int>, distance: int): seq<int> {
    seq(|places|, a requires 0 <= a < |places| => places[a] + distance)
  }

  lemma ShiftLeft(s: string, pattern: string, n: int, places: seq<int>)
    requires 0 <= n <= |s| && Apart(s, pattern, places) && forall a :: 0 <= a < |places| ==> places[a] >= n
    ensures Apart(s[n..], pattern, Shifted(places, -n))
  {
    var shifted := Shifted(places, -n);
    forall a | 0 <= a < |places|
      ensures Occurs(s[n..], pattern, shifted[a])
    {
      OccursBehind(s, pattern, n, places[a] - n);
    }
  }

  lemma ShiftRight(s: string, pattern: string, n: nat, places: seq<int>)
    requires n <= |s| && Apart(s[n..], pattern, places)
    ensures Apart(s, pattern, Shifted(places, n)) && forall a :: 0 <= a < |places| ==> Shifted(places, n)[a] >= n
  {
    var shifted := Shifted(places, n);
    forall a | 0 <= a < |places|
      ensures Occurs(s, pattern, shifted[a])
    {
      OccursBehind(s, pattern, n, places[a]);
    }
  }

  lemma OccursAtStart(s: string, pattern: string)
    ensures Occurs(s, pattern, 0) <==> pattern <= s
  {
  }

  /** No more occurrences than `count` says can stand apart. */
  lemma {:induction false} CountIsMost(s: string, pattern: string, places: seq<int>)
    requires pattern != "" && Apart(s, pattern, places)
    ensures |places| <= Count(s, pattern)
    decreases |s|
  {
    if places != [] {
      assert Occurs(s, pattern, places[0]);
      OccursAtStart(s, pattern);
      if pattern <= s {
        var rest := places[1..];
        assert Apart(s, pattern, rest);
        ShiftLeft(s, pattern, |pattern|, rest);
        CountIsMost(s[|pattern|..], pattern, Shifted(rest, -|pattern|));
      } else {
        ShiftLeft(s, pattern, 1, places);
        CountIsMost(s[1..], pattern, Shifted(places, -1));
      }
    }
  }

  /** And that many do. */
  lemma {:induction false} CountIsReached(s: string, pattern: string) returns (places: seq<int>)
    requires pattern != ""
    ensures Apart(s, pattern, places) && |places| == Count(s, pattern)
    decreases |s|
  {
    places := [];
    if |s| >= |pattern| {
      if pattern <= s {
        var rest := CountIsReached(s[|pattern|..], pattern);
        ShiftRight(s, pattern, |pattern|, rest);
        OccursAtStart(s, pattern);
        places := [0] + Shifted(rest, |pattern|);
      } else {
        var rest := CountIsReached(s[1..], pattern);
        ShiftRight(s, pattern, 1, rest);
        places := Shifted(rest, 1);
      }
    }
  }

  /** `index` gives the first place. */
  lemma {:induction false} IndexIsFirst(s: string, pattern: string, j: int)
    requires pattern != "" && Count(s, pattern) > 0 && Occurs(s, pattern, j)
    ensures Index(s, pattern) <= j && Occurs(s, pattern, Index(s, pattern))
  {
    OccursAtStart(s, pattern);
    if !(pattern <= s) {
      OccursBehind(s, pattern, 1, j - 1);
      IndexIsFirst(s[1..], pattern, j - 1);
    }
  }

  /** The pattern stands first at `i`, and nowhere behind that occurrence. */
  ghost predicate OnlyAt(s: string, pattern: string, i: int) {
    && Occurs(s, pattern, i)
    && (forall j :: 0 <= j < i ==> !Occurs(s, pattern, j))
    && forall j :: i + |pattern| <= j ==> !Occurs(s, pattern, j)
  }

  lemma TwoApart(s: string, pattern: string, places: seq<int>)
    requires Apart(s, pattern, places)
    ensures |places| > 1 ==> exists x, y :: Occurs(s, pattern, x) && Occurs(s, pattern, y) && x + |pattern| <= y
  {
    if |places| > 1 {
      assert Occurs(s, pattern, places[0]) && Occurs(s, pattern, places[1]);
    }
  }

  lemma OnlyAtIsOne(s: string, pattern: string, i: int)
    requires pattern != "" && OnlyAt(s, pattern, i)
    ensures Count(s, pattern) == 1 && Index(s, pattern) == i
  {
    assert Apart(s, pattern, [i]);
    CountIsMost(s, pattern, [i]);
    var places := CountIsReached(s, pattern);
    TwoApart(s, pattern, places);
    IndexIsFirst(s, pattern, i);
  }

  lemma OneIsOnlyAt(s: string, pattern: string)
    requires pattern != "" && Count(s, pattern) == 1
    ensures OnlyAt(s, pattern, Index(s, pattern))
  {
    var places := CountIsReached(s, pattern);
    IndexIsFirst(s, pattern, places[0]);
    var i := Index(s, pattern);
    forall j | Occurs(s, pattern, j)
      ensures i <= j < i + |pattern|
    {
      IndexIsFirst(s, pattern, j);
      if i + |pattern| <= j {
        assert Apart(s, pattern, [i, j]);
        CountIsMost(s, pattern, [i, j]);
      }
    }
  }

  lemma EditCases(content: string, old_: string, new_: string)
    ensures old_ == "" ==> EditOf(content, old_, new_) == EmptyOld
    ensures old_ != "" ==>
              && Normalize(old_) != ""
              && var count := Count(Normalize(content), Normalize(old_));
                 if count != 1 then EditOf(content, old_, new_) == NotUnique(count)
                 else EditOf(content, old_, new_).Edited?
  {
  }

  /** The file is edited exactly when the old text stands in one place, newlines apart. */
  lemma EditedExactly(content: string, old_: string, new_: string)
    ensures EditOf(content, old_, new_).Edited? <==>
            old_ != "" && exists i :: OnlyAt(Normalize(content), Normalize(old_), i)
  {
    hide *;
    EditCases(content, old_, new_);
    if old_ != "" {
      if Count(Normalize(content), Normalize(old_)) == 1 {
        OneIsOnlyAt(Normalize(content), Normalize(old_));
      }
      if i :| OnlyAt(Normalize(content), Normalize(old_), i) {
        OnlyAtIsOne(Normalize(content), Normalize(old_), i);
      }
    }
  }

  lemma OnlyAtFits(s: string, pattern: string, i: int)
    requires OnlyAt(s, pattern, i)
    ensures 0 <= i && i + |pattern| <= |s|
  {
  }

  /** And then that place is what is replaced, between the parts of the original around it. */
  lemma EditedAtThatPlace(content: string, old_: string, new_: string, i: int)
    requires old_ != "" && OnlyAt(Normalize(content), Normalize(old_), i)
    ensures 0 <= i && i + |Normalize(old_)| <= |Normalize(content)|
    ensures EditOf(content, old_, new_) ==
            Edited(content[..OffsetAt(content, i)]
                   + ReplaceChar(Normalize(new_), '\n', NewlineOf(content))
                   + content[OffsetAt(content, i + |Normalize(old_)|)..])
  {
    hide *;
    EditCases(content, old_, new_);
    OnlyAtFits(Normalize(content), Normalize(old_), i);
    OnlyAtIsOne(Normalize(content), Normalize(old_), i);
    EditUnfolds(content, old_, new_);
  }

  /** A refusal names the largest number of places that do not overlap; zero means that there is none. */
  lemma RefusedExactly(content: string, old_: string, new_: string, m: nat)
    ensures var n, p := Normalize(content), Normalize(old_);
            EditOf(content, old_, new_) == NotUnique(m) <==>
            && old_ != "" && m != 1
            && (exists places :: Apart(n, p, places) && |places| == m)
            && forall places :: Apart(n, p, places) ==> |places| <= m
  {
    hide *;
    EditCases(content, old_, new_);
    if old_ != "" {
      var n, p := Normalize(content), Normalize(old_);
      var most := CountIsReached(n, p);
      forall places | Apart(n, p, places)
        ensures |places| <= Count(n, p)
      {
        CountIsMost(n, p, places);
      }
    }
  }

  lemma NoMatchExactly(content: string, old_: string, new_: string)
    ensures EditOf(content, old_, new_) == NotUnique(0) <==>
            old_ != "" && forall i :: !Occurs(Normalize(content), Normalize(old_), i)
  {
    hide Normalize, Count, EditOf;
    EditCases(content, old_, new_);
    if old_ != "" {
      var n, p := Normalize(content), Normalize(old_);
      var most := CountIsReached(n, p);
      if most != [] {
        assert Occurs(n, p, most[0]);
      }
      if i :| Occurs(n, p, i) {
        assert Apart(n, p, [i]);
        CountIsMost(n, p, [i]);
      }
    }
  }

  lemma CrLfOccurs(content: string)
    ensures ContainsCrLf(content) <==> exists i :: Occurs(content, "\r\n", i)
  {
    if ContainsCrLf(content) {
      var i :| 0 <= i < |content| - 1 && content[i] == '\r' && content[i + 1] == '\n';
      assert content[i..i + |"\r\n"|] == [content[i], content[i + 1]];
      assert Occurs(content, "\r\n", i);
    }
    if i :| Occurs(content, "\r\n", i) {
      assert content[i..i + |"\r\n"|][0] == content[i] && content[i..i + |"\r\n"|][1] == content[i + 1];
    }
  }

  lemma CrOccurs(content: string)
    ensures '\r' in content <==> exists i :: Occurs(content, "\r", i)
  {
    if '\r' in content {
      var i :| 0 <= i < |content| && content[i] == '\r';
      assert content[i..i + |"\r"|] == [content[i]];
      assert Occurs(content, "\r", i);
    }
    if i :| Occurs(content, "\r", i) {
      assert content[i..i + |"\r"|][0] == content[i];
    }
  }

  /** New lines are written as CR LF when the file has one, else as CR when it has one, else as LF. */
  lemma NewlineExactly(content: string)
    ensures NewlineOf(content) == "\r\n" <==> exists i :: Occurs(content, "\r\n", i)
    ensures NewlineOf(content) == "\r" <==>
            (forall i :: !Occurs(content, "\r\n", i)) && exists i :: Occurs(content, "\r", i)
    ensures NewlineOf(content) == "\n" <==> forall i :: !Occurs(content, "\r", i)
  {
    CrLfOccurs(content);
    CrOccurs(content);
    assert ContainsCrLf(content) ==> '\r' in content;
    hide ContainsCrLf, Occurs;
  }
}
