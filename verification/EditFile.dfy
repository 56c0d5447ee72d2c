/**
 `file_tools.edit_file`: find the old text with newlines normalised, then splice the new text into
 the original, using its newline style. Decoding and encoding are assumed inverse.
 */
module EditFile {
  import opened Options

  predicate StartsWithCrLf(s: string) {
    |s| >= 2 && s[0] == '\r' && s[1] == '\n'
  }

  /** How many characters the first normalised character takes. */
  function Width(s: string): nat
    requires s != ""
  {
    if StartsWithCrLf(s) then 2 else 1
  }

  function FirstNormal(s: string): char
    requires s != ""
  {
    if s[0] == '\r' then '\n' else s[0]
  }

  /** CRLF and lone CR become LF. */
  function Normalize(s: string): (r: string)
    ensures '\r' !in r
    ensures s != "" ==> r != ""
  {
    if s == "" then "" else [FirstNormal(s)] + Normalize(s[Width(s)..])
  }

  /** Where the normalised character `i` starts in the original. */
  function OffsetAt(s: string, i: nat): (o: nat)
    requires i <= |Normalize(s)|
    ensures o <= |s|
  {
    if i == 0 then 0 else Width(s) + OffsetAt(s[Width(s)..], i - 1)
  }

  lemma NormalizeUnfolds(s: string)
    ensures s != "" ==> Normalize(s) == [FirstNormal(s)] + Normalize(s[Width(s)..])
    ensures Normalize("") == ""
  {
  }

  /** One turn of the loop: one more normalised character, and a shorter rest. */
  lemma NormalizeStep(content: string, at: nat, normalized: string)
    requires at < |content|
    ensures var rest := content[at..];
            && Width(rest) == (if content[at] == '\r' && at + 1 < |content| && content[at + 1] == '\n' then 2 else 1)
            && at + Width(rest) <= |content|
            && FirstNormal(rest) == (if content[at] == '\r' then '\n' else content[at])
            && normalized + [FirstNormal(rest)] + Normalize(content[at + Width(rest)..])
               == normalized + Normalize(rest)
            && Normalize(rest) != ""
  {
    var rest := content[at..];
    NormalizeUnfolds(rest);
    assert rest[Width(rest)..] == content[at + Width(rest)..];
    hide Normalize, Width;
    var more := Normalize(content[at + Width(rest)..]);
    assert normalized + [FirstNormal(rest)] + more == normalized + ([FirstNormal(rest)] + more);
  }

  method NormalizeWithOffsets(content: string) returns (normalized: string, offsets: seq<nat>)
    ensures normalized == Normalize(content)
    ensures |offsets| == |normalized| + 1
    ensures forall i :: 0 <= i < |offsets| ==> offsets[i] == OffsetAt(content, i)
  {
    hide *;
    normalized := [];
    offsets := [0];
    var sourceIndex := 0;
    OffsetUnfolds(content, 0);
    assert content[0..] == content && normalized + Normalize(content) == Normalize(content);
    while sourceIndex < |content|
      invariant sourceIndex <= |content|
      invariant normalized + Normalize(content[sourceIndex..]) == Normalize(content)
      invariant |offsets| == |normalized| + 1 && offsets[|normalized|] == sourceIndex
      invariant |normalized| <= |Normalize(content)|
      invariant forall i :: 0 <= i < |offsets| ==> offsets[i] == OffsetAt(content, i)
      decreases |content| - sourceIndex
    {
      NormalizeStep(content, sourceIndex, normalized);
      NextOffset(content, |normalized|);
      var ch := content[sourceIndex];
      if ch == '\r' {
        if sourceIndex + 1 < |content| && content[sourceIndex + 1] == '\n' {
          sourceIndex := sourceIndex + 1;
        }
        ch := '\n';
      }
      normalized := normalized + [ch];
      sourceIndex := sourceIndex + 1;
      offsets := offsets + [sourceIndex];
    }
    NormalizeUnfolds("");
    assert content[sourceIndex..] == "";
  }

  lemma SliceOfSlice(s: string, w: nat, o: nat)
    requires w + o <= |s|
    ensures s[..w + o][w..] == s[w..][..o] && s[w + o..] == s[w..][o..]
  {
  }

  lemma PrependSlices(c: char, t: string, i: nat)
    requires 0 < i <= |t| + 1
    ensures ([c] + t)[..i] == [c] + t[..i - 1] && ([c] + t)[i..] == t[i - 1..]
  {
  }

  /** Cutting at an offset cuts the normalised text at the same character. */
  lemma {:induction false} OffsetSplits(s: string, i: nat)
    requires i <= |Normalize(s)|
    ensures Normalize(s[..OffsetAt(s, i)]) == Normalize(s)[..i]
    ensures Normalize(s[OffsetAt(s, i)..]) == Normalize(s)[i..]
  {
    hide *;
    OffsetUnfolds(s, i);
    if i > 0 {
      var w, rest := Width(s), s[Width(s)..];
      var o := OffsetAt(rest, i - 1);
      OffsetSplits(rest, i - 1);
      HeadStartsAlike(s, o);
      NormalizeUnfolds(s);
      NormalizeUnfolds(s[..w + o]);
      SliceOfSlice(s, w, o);
      PrependSlices(FirstNormal(s), Normalize(rest), i);
    } else {
      NormalizeUnfolds("");
      assert s[0..] == s && s[..0] == "";
    }
  }

  lemma OffsetUnfolds(s: string, i: nat)
    requires i <= |Normalize(s)|
    ensures OffsetAt(s, 0) == 0
    ensures i > 0 ==> s != "" && Width(s) <= |s| && i - 1 <= |Normalize(s[Width(s)..])|
    ensures i > 0 ==> OffsetAt(s, i) == Width(s) + OffsetAt(s[Width(s)..], i - 1)
  {
  }

  /** A prefix that holds the first normalised character starts with the same one. */
  lemma HeadStartsAlike(s: string, o: nat)
    requires s != "" && Width(s) + o <= |s|
    ensures var head := s[..Width(s) + o];
            && head != "" && Width(head) == Width(s)
            && FirstNormal(head) == FirstNormal(s) && head[..Width(s)] == s[..Width(s)]
  {
  }

  lemma {:induction false} NextOffset(s: string, i: nat)
    requires i < |Normalize(s)|
    ensures OffsetAt(s, i) < |s|
    ensures OffsetAt(s, i + 1) == OffsetAt(s, i) + Width(s[OffsetAt(s, i)..])
  {
    if i == 0 {
      assert s[0..] == s;
      assert OffsetAt(s[Width(s)..], 0) == 0;
    } else {
      NextOffset(s[Width(s)..], i - 1);
      assert s[OffsetAt(s, i)..] == s[Width(s)..][OffsetAt(s[Width(s)..], i - 1)..];
    }
  }

  // ---------- the two replacements applied to the arguments ----------

  /** `s.replace("\r\n", "\n")`. */
  function ReplaceCrLf(s: string): string {
    if s == "" then ""
    else if StartsWithCrLf(s) then "\n" + ReplaceCrLf(s[2..])
    else [s[0]] + ReplaceCrLf(s[1..])
  }

  /** `s.replace(from, to)` for one character. */
  function ReplaceChar(s: string, from: char, to: string): string {
    if s == "" then "" else (if s[0] == from then to else [s[0]]) + ReplaceChar(s[1..], from, to)
  }

  /** Replacing twice is normalising once. */
  lemma {:induction false} TwoReplacesNormalize(s: string)
    ensures ReplaceChar(ReplaceCrLf(s), '\r', "\n") == Normalize(s)
  {
    if s != "" {
      TwoReplacesNormalize(s[Width(s)..]);
      var rest := ReplaceCrLf(s[Width(s)..]);
      assert ReplaceCrLf(s)[1..] == rest;
    }
  }

  // ---------- the edit ----------

  /** `s.count(pattern)`: occurrences that do not overlap. */
  function Count(s: string, pattern: string): nat
    requires pattern != ""
  {
    if |s| < |pattern| then 0
    else if pattern <= s then 1 + Count(s[|pattern|..], pattern)
    else Count(s[1..], pattern)
  }

  /** `s.index(pattern)`, when it occurs. */
  function Index(s: string, pattern: string): (i: nat)
    requires pattern != "" && Count(s, pattern) > 0
    ensures i + |pattern| <= |s| && s[i..i + |pattern|] == pattern
  {
    if pattern <= s then 0
    else
      var i := Index(s[1..], pattern);
      assert s[1..][i..i + |pattern|] == s[i + 1..i + 1 + |pattern|];
      i + 1
  }

  predicate ContainsCrLf(s: string) {
    exists i :: 0 <= i < |s| - 1 && s[i] == '\r' && s[i + 1] == '\n'
  }

  /** The newline style written into the replacement. */
  function NewlineOf(content: string): string {
    if ContainsCrLf(content) then "\r\n" else if '\r' in content then "\r" else "\n"
  }

  datatype EditResult =
    | EmptyOld
    | NotUnique(matches: nat)
    | Edited(content: string)

  /** The three parts of the edited text. */
  datatype Splice = Splice(before: string, replacement: string, after: string) {
    function Text(): string {
      before + replacement + after
    }
  }

  function SpliceOf(content: string, old_: string, new_: string): Splice
    requires old_ != "" && Count(Normalize(content), Normalize(old_)) == 1
  {
    var start := Index(Normalize(content), Normalize(old_));
    Splice(content[..OffsetAt(content, start)],
           ReplaceChar(Normalize(new_), '\n', NewlineOf(content)),
           content[OffsetAt(content, start + |Normalize(old_)|)..])
  }

  function EditOf(content: string, old_: string, new_: string): EditResult {
    if old_ == "" then EmptyOld
    else
      var count := Count(Normalize(content), Normalize(old_));
      if count != 1 then NotUnique(count) else Edited(SpliceOf(content, old_, new_).Text())
  }

  method Edit(content: string, old_: string, new_: string) returns (r: EditResult)
    ensures r == EditOf(content, old_, new_)
  {
    if old_ == "" {
      return EmptyOld;
    }
    var normalized, offsets := NormalizeWithOffsets(content);
    TwoReplacesNormalize(old_);
    TwoReplacesNormalize(new_);
    var normalizedOld := ReplaceChar(ReplaceCrLf(old_), '\r', "\n");
    var normalizedNew := ReplaceChar(ReplaceCrLf(new_), '\r', "\n");
    var count := Count(normalized, normalizedOld);
    if count != 1 {
      return NotUnique(count);
    }
    var matchStart := Index(normalized, normalizedOld);
    var matchEnd := matchStart + |normalizedOld|;
    var replacement := ReplaceChar(normalizedNew, '\n', NewlineOf(content));
    r := Edited(content[..offsets[matchStart]] + replacement + content[offsets[matchEnd]..]);
  }

  // ---------- what an edit means for the normalised text ----------

  /** A CR at the end of one text and a LF at the start of the next become one newline. */
  predicate Joins(a: string, b: string) {
    a != "" && b != "" && a[|a| - 1] == '\r' && b[0] == '\n'
  }

  /** Dropping the first normalised character does not change what happens at the seam. */
  lemma JoinsTail(a: string, b: string)
    requires a != "" && !(a == "\r" && Joins(a, b))
    ensures Width(a + b) == Width(a) && FirstNormal(a + b) == FirstNormal(a)
    ensures (a + b)[Width(a)..] == a[Width(a)..] + b
    ensures Joins(a, b) <==> Joins(a[Width(a)..], b)
  {
  }

  lemma {:induction false} NormalizeJoined(a: string, b: string)
    ensures !Joins(a, b) ==> Normalize(a + b) == Normalize(a) + Normalize(b)
    ensures Joins(a, b) ==> |Normalize(a + b)| == |Normalize(a)| + |Normalize(b)| - 1
    decreases |a|
  {
    if a == "" {
      assert a + b == b;
    } else if a == "\r" && Joins(a, b) {
      assert (a + b)[2..] == b[1..] && Width(a + b) == 2;
      assert Normalize(a) == "\n" by { assert a[1..] == ""; }
      assert Width(b) == 1;
    } else {
      NormalizeUnfolds(a);
      NormalizeUnfolds(a + b);
      JoinsTail(a, b);
      hide *;
      NormalizeJoined(a[Width(a)..], b);
      Regroup([FirstNormal(a)], Normalize(a[Width(a)..]), Normalize(b));
    }
  }

  lemma Regroup(a: string, b: string, c: string)
    ensures a + (b + c) == a + b + c
  {
  }

  /** The replacement reads, normalised, like the new text, in any newline style. */
  lemma {:induction false} ReplacementNormalizes(t: string, newline: string)
    requires '\r' !in t && newline in {"\r\n", "\r", "\n"}
    ensures Normalize(ReplaceChar(t, '\n', newline)) == t
    ensures var r := ReplaceChar(t, '\n', newline); newline != "\n" && r != "" ==> r[0] != '\n'
  {
    if t != "" {
      ReplacementNormalizes(t[1..], newline);
      var head := if t[0] == '\n' then newline else [t[0]];
      var tail := ReplaceChar(t[1..], '\n', newline);
      NormalizeJoined(head, tail);
      assert Normalize(newline) == "\n" by {
        assert newline[Width(newline)..] == "";
      }
      assert Normalize([t[0]]) == if t[0] == '\r' then "\n" else [t[0]];
      assert newline == "\r" ==> !Joins(head, tail);
      assert t == [t[0]] + t[1..];
    }
  }

  lemma NewlineIsOneOfThree(content: string)
    ensures NewlineOf(content) in {"\r\n", "\r", "\n"}
    ensures NewlineOf(content) == "\n" ==> '\r' !in content
    ensures NewlineOf(content) == "\r" ==> !ContainsCrLf(content)
  {
  }

  /** The replaced stretch and its surroundings, in the original and normalised. */
  lemma SpliceParts(content: string, old_: string, new_: string)
    requires old_ != "" && Count(Normalize(content), Normalize(old_)) == 1
    ensures var splice := SpliceOf(content, old_, new_);
            var normalized, start := Normalize(content), Index(Normalize(content), Normalize(old_));
            && Normalize(splice.before) == normalized[..start]
            && Normalize(splice.replacement) == Normalize(new_)
            && Normalize(splice.after) == normalized[start + |Normalize(old_)|..]
  {
    hide Normalize, OffsetAt, Index, Count, ReplaceChar;
    var start := Index(Normalize(content), Normalize(old_));
    OffsetSplits(content, start);
    OffsetSplits(content, start + |Normalize(old_)|);
    NewlineIsOneOfThree(content);
    ReplacementNormalizes(Normalize(new_), NewlineOf(content));
  }

  /** Replacing the one occurrence of the old text in the normalised content. */
  function NormalizedEdit(content: string, old_: string, new_: string): string
    requires old_ != "" && Count(Normalize(content), Normalize(old_)) == 1
  {
    var normalized, start := Normalize(content), Index(Normalize(content), Normalize(old_));
    normalized[..start] + Normalize(new_) + normalized[start + |Normalize(old_)|..]
  }

  /**
   The splice puts a CR before a LF: when the text removed between a lone CR and a LF leaves nothing
   behind, or when a CR-only file gets a newline in front of a LF.
   */
  predicate MergesNewlines(content: string, splice: Splice, normalizedNew: string) {
    || (normalizedNew == "" && Joins(splice.before, splice.after))
    || (normalizedNew != "" && normalizedNew[|normalizedNew| - 1] == '\n'
        && NewlineOf(content) == "\r" && splice.after != "" && splice.after[0] == '\n')
  }

  lemma {:induction false} ReplacementEnds(t: string, newline: string)
    requires '\r' !in t && newline in {"\r\n", "\r", "\n"}
    ensures var r := ReplaceChar(t, '\n', newline);
            && (r == "" <==> t == "")
            && (r != "" && r[|r| - 1] == '\r' <==> newline == "\r" && t != "" && t[|t| - 1] == '\n')
  {
    if t != "" {
      ReplacementEnds(t[1..], newline);
      var head := if t[0] == '\n' then newline else [t[0]];
      var tail := ReplaceChar(t[1..], '\n', newline);
      assert |t| == 1 ==> t[1..] == "";
      assert tail != "" ==> (head + tail)[|head + tail| - 1] == tail[|tail| - 1];
    }
  }

  /** A newline is made by the splice exactly where a CR comes to stand before a LF. */
  lemma JoinsAreMerges(content: string, old_: string, new_: string)
    requires old_ != "" && Count(Normalize(content), Normalize(old_)) == 1
    ensures var splice := SpliceOf(content, old_, new_);
            MergesNewlines(content, splice, Normalize(new_)) <==>
            Joins(splice.before, splice.replacement + splice.after) || Joins(splice.replacement, splice.after)
  {
    var splice := SpliceOf(content, old_, new_);
    var start := Index(Normalize(content), Normalize(old_));
    NewlineIsOneOfThree(content);
    ReplacementEnds(Normalize(new_), NewlineOf(content));
    ReplacementNormalizes(Normalize(new_), NewlineOf(content));
    if splice.replacement == "" {
      assert "" + splice.after == splice.after;
    } else if splice.before != "" {
      assert splice.before[|splice.before| - 1] in content;
    }
  }

  lemma ThreeParts(a: string, b: string, c: string)
    ensures Normalize(a + b + c) == Normalize(a) + Normalize(b) + Normalize(c)
            <==> !Joins(a, b + c) && !Joins(b, c)
  {
    NormalizeJoined(b, c);
    NormalizeJoined(a, b + c);
    hide *;
    assert a + b + c == a + (b + c);
    var x, y, z := Normalize(a), Normalize(b), Normalize(c);
    assert x + y + z == x + (y + z);
  }

  /**
   Editing commutes with newline normalisation exactly when the splice merges no newlines.
   */
  lemma EditCommutesExactly(content: string, old_: string, new_: string)
    requires old_ != "" && Count(Normalize(content), Normalize(old_)) == 1
    ensures var splice := SpliceOf(content, old_, new_);
            Normalize(splice.Text()) == NormalizedEdit(content, old_, new_)
            <==> !MergesNewlines(content, splice, Normalize(new_))
  {
    hide Normalize, Joins, Index, Count, OffsetAt, ReplaceChar, MergesNewlines, SpliceOf;
    var splice := SpliceOf(content, old_, new_);
    SpliceParts(content, old_, new_);
    JoinsAreMerges(content, old_, new_);
    ThreeParts(splice.before, splice.replacement, splice.after);
  }

  lemma MixedExample()
    ensures Normalize("\rx\n") == "\nx\n" && Normalize("x") == "x"
    ensures OffsetAt("\rx\n", 1) == 1 && OffsetAt("\rx\n", 2) == 2
  {
    assert "\rx\n"[1..] == "x\n" && "x\n"[1..] == "\n" && "\n"[1..] == "" && "x"[1..] == "";
    assert Normalize("x\n") == "x\n" by {
      assert Normalize("\n") == "\n";
    }
    assert OffsetAt("x\n", 1) == 1;
  }

  lemma MixedExampleMatch()
    ensures Count("\nx\n", "x") == 1 && Index("\nx\n", "x") == 1
  {
    assert "\nx\n"[1..] == "x\n" && "x\n"[1..] == "\n";
    assert "\n"[0] != "x"[0] && "\nx\n"[0] != "x"[0] && "x" <= "x\n" && |"x"| == 1;
    assert Count("", "x") == 0;
    assert "\n"[1..] == "" && Count("\n", "x") == Count("", "x");
    assert Count("x\n", "x") == 1 + Count("x\n"[|"x"|..], "x");
    assert Index("x\n", "x") == 0;
  }

  /** A file where they merge: removing the text between a lone CR and a LF loses a newline. */
  lemma MixedNewlinesCanMerge()
    ensures Count(Normalize("\rx\n"), Normalize("x")) == 1
    ensures Normalize(SpliceOf("\rx\n", "x", "").Text()) != NormalizedEdit("\rx\n", "x", "")
  {
    hide Normalize, Count, Index, OffsetAt;
    MixedExample();
    MixedExampleMatch();
    NormalizeUnfolds("");
    assert "\rx\n"[..1] == "\r" && "\rx\n"[2..] == "\n";
    EditCommutesExactly("\rx\n", "x", "");
  }

  /** Newline styles the edit is meant for: no CR without a LF behind it, or no LF at all. */
  predicate HasCleanNewlines(content: string) {
    || '\n' !in content
    || (forall i :: 0 <= i < |content| && content[i] == '\r' ==> i + 1 < |content| && content[i + 1] == '\n')
  }

  /** An offset never falls between a CR and its LF. */
  lemma {:induction false} NoHalfNewline(s: string, i: nat)
    requires i <= |Normalize(s)|
    ensures var o := OffsetAt(s, i); 0 < o < |s| ==> !(s[o - 1] == '\r' && s[o] == '\n')
  {
    if i > 0 {
      var w := Width(s);
      NoHalfNewline(s[w..], i - 1);
    }
  }

  lemma CleanNeverMerges(content: string, from: nat, to: nat, replacement: string, normalizedNew: string)
    requires HasCleanNewlines(content) && from <= to <= |content|
    requires 0 < from < |content| ==> !(content[from - 1] == '\r' && content[from] == '\n')
    ensures !MergesNewlines(content, Splice(content[..from], replacement, content[to..]), normalizedNew)
  {
    if '\r' in content {
      var i :| 0 <= i < |content| && content[i] == '\r';
      if '\n' in content {
        assert i + 1 < |content| && content[i + 1] == '\n';
        assert ContainsCrLf(content);
      }
    }
    if to < |content| {
      assert content[to] in content;
    }
  }

  lemma SpliceIsAt(content: string, old_: string, new_: string)
    requires old_ != "" && Count(Normalize(content), Normalize(old_)) == 1
    ensures var start := Index(Normalize(content), Normalize(old_));
            var from, to := OffsetAt(content, start), OffsetAt(content, start + |Normalize(old_)|);
            var splice := SpliceOf(content, old_, new_);
            splice == Splice(content[..from], splice.replacement, content[to..])
  {
    hide Normalize, Count, Index, OffsetAt;
  }

  /** For those files an edit is a replacement in the normalised text. */
  lemma CleanEditCommutes(content: string, old_: string, new_: string)
    requires old_ != "" && Count(Normalize(content), Normalize(old_)) == 1
    requires HasCleanNewlines(content)
    ensures Normalize(SpliceOf(content, old_, new_).Text()) == NormalizedEdit(content, old_, new_)
  {
    hide *;
    EditCommutesExactly(content, old_, new_);
    CleanSpliceNeverMerges(content, old_, new_);
  }

  lemma CleanSpliceNeverMerges(content: string, old_: string, new_: string)
    requires old_ != "" && Count(Normalize(content), Normalize(old_)) == 1
    requires HasCleanNewlines(content)
    ensures !MergesNewlines(content, SpliceOf(content, old_, new_), Normalize(new_))
  {
    hide *;
    var start := Index(Normalize(content), Normalize(old_));
    var end := start + |Normalize(old_)|;
    NoHalfNewline(content, start);
    OffsetsIncrease(content, start, end);
    SpliceIsAt(content, old_, new_);
    var replacement := SpliceOf(content, old_, new_).replacement;
    CleanNeverMerges(content, OffsetAt(content, start), OffsetAt(content, end), replacement, Normalize(new_));
  }

  lemma {:induction false} OffsetsIncrease(s: string, i: nat, j: nat)
    requires i <= j <= |Normalize(s)|
    ensures OffsetAt(s, i) <= OffsetAt(s, j)
    decreases j - i
  {
    if i < j {
      NextOffset(s, i);
      OffsetsIncrease(s, i + 1, j);
    }
  }

  // ---------- replacing a text by itself ----------

  /** Every newline of the text is written the same way. */
  predicate OnlyNewline(s: string, newline: string) {
    s == "" ||
    (&& (FirstNormal(s) == '\n' ==> s[..Width(s)] == newline)
     && OnlyNewline(s[Width(s)..], newline))
  }

  lemma {:induction false} OnlyNewlineRestores(s: string, newline: string)
    requires OnlyNewline(s, newline)
    ensures ReplaceChar(Normalize(s), '\n', newline) == s
  {
    if s != "" {
      var w := Width(s);
      OnlyNewlineRestores(s[w..], newline);
      assert Normalize(s)[1..] == Normalize(s[w..]);
      assert s == s[..w] + s[w..];
    }
  }

  lemma OnlyNewlineUnfolds(s: string, newline: string)
    ensures OnlyNewline("", newline)
    ensures s != "" ==>
              (OnlyNewline(s, newline) <==>
               (FirstNormal(s) == '\n' ==> s[..Width(s)] == newline) && OnlyNewline(s[Width(s)..], newline))
  {
  }

  lemma {:induction false} OnlyNewlineSplits(s: string, newline: string, i: nat)
    requires OnlyNewline(s, newline) && i <= |Normalize(s)|
    ensures OnlyNewline(s[..OffsetAt(s, i)], newline) && OnlyNewline(s[OffsetAt(s, i)..], newline)
  {
    hide *;
    OffsetUnfolds(s, i);
    if i == 0 {
      OnlyNewlineUnfolds("", newline);
      assert s[0..] == s && s[..0] == "";
    } else {
      var w, rest := Width(s), s[Width(s)..];
      var o := OffsetAt(rest, i - 1);
      OnlyNewlineUnfolds(s, newline);
      OnlyNewlineSplits(rest, newline, i - 1);
      HeadStartsAlike(s, o);
      OnlyNewlineUnfolds(s[..w + o], newline);
      SliceOfSlice(s, w, o);
    }
  }

  /** No CR, no LF, or every newline a CRLF. */
  predicate HasUniformNewlines(content: string) {
    || '\r' !in content
    || '\n' !in content
    || (&& (forall i :: 0 <= i < |content| && content[i] == '\r' ==> i + 1 < |content| && content[i + 1] == '\n')
        && (forall i :: 0 <= i < |content| && content[i] == '\n' ==> i > 0 && content[i - 1] == '\r'))
  }

  lemma {:induction false} PlainNewlines(s: string, newline: string)
    requires newline in {"\n", "\r"} && (newline == "\n" ==> '\r' !in s) && (newline == "\r" ==> '\n' !in s)
    ensures OnlyNewline(s, newline)
  {
    if s != "" {
      assert s[0] in s && s[..1] == [s[0]];
      assert !StartsWithCrLf(s) by {
        assert |s| >= 2 ==> s[1] in s;
      }
      assert forall c :: c in s[1..] ==> c in s;
      PlainNewlines(s[1..], newline);
    }
  }

  lemma {:induction false} PairedNewlines(s: string)
    requires forall i :: 0 <= i < |s| && s[i] == '\r' ==> i + 1 < |s| && s[i + 1] == '\n'
    requires forall i :: 0 <= i < |s| && s[i] == '\n' ==> i > 0 && s[i - 1] == '\r'
    ensures OnlyNewline(s, "\r\n")
  {
    if s != "" {
      var w := Width(s);
      var rest := s[w..];
      assert s[0] != '\n';
      forall i | 0 <= i < |rest|
        ensures rest[i] == '\r' ==> i + 1 < |rest| && rest[i + 1] == '\n'
        ensures rest[i] == '\n' ==> i > 0 && rest[i - 1] == '\r'
      {
        assert rest[i] == s[w + i];
        assert s[0] == '\r' ==> w == 2;
      }
      PairedNewlines(rest);
      assert w == 2 ==> s[..2] == "\r\n";
    }
  }

  lemma UniformIsOnlyNewline(content: string)
    requires HasUniformNewlines(content)
    ensures OnlyNewline(content, NewlineOf(content))
  {
    if '\r' !in content {
      PlainNewlines(content, "\n");
    } else if '\n' !in content {
      PlainNewlines(content, "\r");
    } else {
      PairedNewlines(content);
      var i :| 0 <= i < |content| && content[i] == '\r';
      assert ContainsCrLf(content) by {
        assert content[i + 1] == '\n';
      }
    }
  }

  lemma Reassembled(s: string, from: nat, to: nat)
    requires from <= to <= |s|
    ensures s[..from] + s[from..to] + s[to..] == s
  {
  }

  /** With one newline style, replacing a text by itself gives back the identical file. */
  lemma SelfEditIsIdentity(content: string, old_: string)
    requires old_ != "" && Count(Normalize(content), Normalize(old_)) == 1
    requires HasUniformNewlines(content)
    ensures EditOf(content, old_, old_) == Edited(content)
  {
    hide *;
    var normalized, o := Normalize(content), Normalize(old_);
    var start := Index(normalized, o);
    EditUnfolds(content, old_, old_);
    UniformIsOnlyNewline(content);
    MiddleIsRestored(content, start, start + |o|, NewlineOf(content));
    Reassembled(content, OffsetAt(content, start), OffsetAt(content, start + |o|));
  }

  lemma EditUnfolds(content: string, old_: string, new_: string)
    requires old_ != "" && Count(Normalize(content), Normalize(old_)) == 1
    ensures var start := Index(Normalize(content), Normalize(old_));
            EditOf(content, old_, new_) ==
            Edited(content[..OffsetAt(content, start)]
                   + ReplaceChar(Normalize(new_), '\n', NewlineOf(content))
                   + content[OffsetAt(content, start + |Normalize(old_)|)..])
  {
    hide Normalize, OffsetAt, Index, Count, ReplaceChar, NewlineOf;
  }

  /** The stretch between two offsets is its normalised text in the file's newline style. */
  lemma MiddleIsRestored(content: string, i: nat, j: nat, newline: string)
    requires i <= j <= |Normalize(content)| && OnlyNewline(content, newline)
    ensures OffsetAt(content, i) <= OffsetAt(content, j)
    ensures ReplaceChar(Normalize(content)[i..j], '\n', newline) == content[OffsetAt(content, i)..OffsetAt(content, j)]
  {
    var from, to := OffsetAt(content, i), OffsetAt(content, j);
    var head := content[..to];
    OffsetsIncrease(content, i, j);
    OffsetSplits(content, j);
    OnlyNewlineSplits(content, newline, j);
    OffsetInPrefix(content, i, j);
    OffsetSplits(head, i);
    OnlyNewlineSplits(head, newline, i);
    OnlyNewlineRestores(head[from..], newline);
    assert head[from..] == content[from..to];
    assert Normalize(content)[..j][i..] == Normalize(content)[i..j];
  }

  lemma {:induction false} OffsetInPrefix(s: string, i: nat, j: nat)
    requires i <= j <= |Normalize(s)|
    ensures |Normalize(s[..OffsetAt(s, j)])| == j && OffsetAt(s[..OffsetAt(s, j)], i) == OffsetAt(s, i)
  {
    hide *;
    OffsetSplits(s, j);
    OffsetUnfolds(s, i);
    OffsetUnfolds(s, j);
    var head := s[..OffsetAt(s, j)];
    assert |Normalize(head)| == j;
    OffsetUnfolds(head, i);
    if i > 0 {
      var w, rest := Width(s), s[Width(s)..];
      var o := OffsetAt(rest, j - 1);
      HeadStartsAlike(s, o);
      SliceOfSlice(s, w, o);
      OffsetInPrefix(rest, i - 1, j - 1);
    }
  }
}
