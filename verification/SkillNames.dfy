/** Folder names produced by `_slugify`, and the names startup recovery accepts. */
module SkillNames {
  import opened Strings

  const BACKUP_PREFIX := ".ari-update-backup-"
  const RESERVED_PREFIX := ".ari-"

  predicate StartsWith(s: string, prefix: string) {
    prefix <= s
  }

  /** `os.path.basename(s) == s`. */
  predicate IsBasename(s: string) {
    '/' !in s && '\\' !in s
  }

  predicate IsTrimmed(c: char) {
    c == '-' || c == '.' || c == '_'
  }

  predicate IsKept(c: char, isWord: CharClass) {
    isWord(c) || c == '.' || c == '-'
  }

  /** `re.sub(r"[^\w.-]+", "-", s)`: every maximal run of other characters becomes one dash. */
  function ReplaceRuns(s: string, isWord: CharClass): (r: string)
    ensures forall c :: c in r ==> IsKept(c, isWord)
    decreases |s|
  {
    if s == [] then []
    else if IsKept(s[0], isWord) then [s[0]] + ReplaceRuns(s[1..], isWord)
    else
      "-" + ReplaceRuns(TrimLeft(s[1..], c => !IsKept(c, isWord)), isWord)
  }

  /** `isWord` is Python's `\w`, which depends on the Unicode tables. */
  function Slugify(value: string, isWord: CharClass): string {
    var text := ReplaceRuns(Strip(value, IsSpace), isWord);
    var trimmed := Strip(text, IsTrimmed);
    if trimmed == "" then "skill" else trimmed
  }

  /** What the update journal relies on about a destination folder's name. */
  predicate IsSafeName(name: string) {
    name != "" && IsBasename(name) && !IsTrimmed(name[0])
  }

  /** Whatever a package is called, its folder is one path component that is not dotted. */
  lemma SlugIsSafe(value: string, isWord: CharClass)
    requires !isWord('/') && !isWord('\\')
    ensures IsSafeName(Slugify(value, isWord))
  {
    var text := ReplaceRuns(Strip(value, IsSpace), isWord);
    var left := TrimLeft(text, IsTrimmed);
    TrimLeftIsSuffix(text, IsTrimmed);
    assert forall c :: c in left ==> c in text;
    var trimmed := TrimRight(left, IsTrimmed);
    assert forall c :: c in trimmed ==> c in left;
    if trimmed != "" {
      assert trimmed[0] == left[0];
    }
  }

  lemma {:induction false} KeptStays(a: string, b: string, isWord: CharClass)
    requires forall c :: c in a ==> IsKept(c, isWord)
    ensures ReplaceRuns(a + b, isWord) == a + ReplaceRuns(b, isWord)
  {
    if a == "" {
      assert a + b == b;
    } else {
      assert a[0] in a && (a + b)[1..] == a[1..] + b;
      KeptStays(a[1..], b, isWord);
    }
  }

  lemma {:induction false} RunIsTrimmed(run: string, b: string, isWord: CharClass)
    requires (forall c :: c in run ==> !IsKept(c, isWord)) && (b == "" || IsKept(b[0], isWord))
    ensures TrimLeft(run + b, c => !IsKept(c, isWord)) == b
  {
    if run == "" {
      assert run + b == b;
    } else {
      assert run[0] in run && (run + b)[1..] == run[1..] + b;
      RunIsTrimmed(run[1..], b, isWord);
    }
  }

  /** Nothing to trim on either side. */
  predicate HasCleanEnds(s: string) {
    s != "" && !IsTrimmed(s[0]) && !IsSpace(s[0]) && !IsTrimmed(s[|s| - 1]) && !IsSpace(s[|s| - 1])
  }

  lemma CleanEndsStay(s: string)
    requires HasCleanEnds(s)
    ensures Strip(s, IsSpace) == s && Strip(s, IsTrimmed) == s
  {
  }

  /** A proper folder name is its own slug. */
  lemma SlugKeepsName(a: string, isWord: CharClass)
    requires HasCleanEnds(a) && forall c :: c in a ==> IsKept(c, isWord)
    ensures Slugify(a, isWord) == a
  {
    hide IsTrimmed, IsSpace;
    CleanEndsStay(a);
    KeptStays(a, "", isWord);
    assert a + "" == a;
  }

  lemma RunIsReplaced(a: string, run: string, b: string, isWord: CharClass)
    requires (forall c :: c in a ==> IsKept(c, isWord)) && forall c :: c in b ==> IsKept(c, isWord)
    requires run != "" && b != "" && forall c :: c in run ==> !IsKept(c, isWord)
    ensures ReplaceRuns(a + run + b, isWord) == a + "-" + b
  {
    hide IsKept;
    assert a + run + b == a + (run + b);
    KeptStays(a, run + b, isWord);
    assert run[0] in run && b[0] in b && (run + b)[0] == run[0] && (run + b)[1..] == run[1..] + b;
    RunIsTrimmed(run[1..], b, isWord);
    KeptStays(b, "", isWord);
    assert b + "" == b;
  }

  /** A run of other characters within a name becomes one dash. */
  lemma SlugDashesRuns(a: string, run: string, b: string, isWord: CharClass)
    requires HasCleanEnds(a) && HasCleanEnds(b) && run != ""
    requires (forall c :: c in a ==> IsKept(c, isWord)) && forall c :: c in b ==> IsKept(c, isWord)
    requires forall c :: c in run ==> !IsKept(c, isWord)
    ensures Slugify(a + run + b, isWord) == a + "-" + b
  {
    hide IsTrimmed, IsSpace, IsKept;
    JoinedEnds(a, run, b);
    JoinedEnds(a, "-", b);
    CleanEndsStay(a + run + b);
    CleanEndsStay(a + "-" + b);
    RunIsReplaced(a, run, b, isWord);
  }

  lemma JoinedEnds(a: string, middle: string, b: string)
    requires HasCleanEnds(a) && HasCleanEnds(b)
    ensures HasCleanEnds(a + middle + b)
  {
    var s := a + middle + b;
    assert s[0] == a[0] && s[|s| - 1] == b[|b| - 1];
  }
}
