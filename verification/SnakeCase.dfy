/**
 Operation names: two regular-expression passes over a Go field name, each replacing
 leftmost, non-overlapping matches, then lower-casing. They are proved equal to one scan
 with a local rule.
 */
module SnakeCase {

  predicate IsUpper(c: char) { 'A' <= c <= 'Z' }
  predicate IsLower(c: char) { 'a' <= c <= 'z' }
  predicate IsLowerOrDigit(c: char) { IsLower(c) || '0' <= c <= '9' }

  /** The three classes of the regular expressions, character by character. */
  lemma CharacterClasses(c: char)
    ensures IsUpper(c) <==> c in "ABCDEFGHIJKLMNOPQRSTUVWXYZ"
    ensures IsLower(c) <==> c in "abcdefghijklmnopqrstuvwxyz"
    ensures IsLowerOrDigit(c) <==> c in "abcdefghijklmnopqrstuvwxyz0123456789"
  {
    InRange('A', "ABCDEFGHIJKLMNOPQRSTUVWXYZ", c);
    InRange('a', "abcdefghijklmnopqrstuvwxyz", c);
    InRange('0', "0123456789", c);
  }

  lemma InRange(from: char, range: string, c: char)
    requires from as int + |range| < 0xD800 && forall i :: 0 <= i < |range| ==> range[i] as int == from as int + i
    ensures c in range <==> from as int <= c as int < from as int + |range|
  {
    if from as int <= c as int < from as int + |range| {
      assert range[c as int - from as int] == c;
    }
  }

  // ---------- The two passes ----------

  /** How many lower-case letters `s` starts with: the greedy `[a-z]+`. */
  function LowerRun(s: string): (n: nat)
    ensures n <= |s|
    ensures forall i :: 0 <= i < n ==> IsLower(s[i])
    ensures n < |s| ==> !IsLower(s[n])
  {
    if s == "" || !IsLower(s[0]) then 0 else 1 + LowerRun(s[1..])
  }

  /** `(.)([A-Z][a-z]+)` matches at the start of `s`; the dot does not match a newline. */
  predicate WordStartsAfterFirst(s: string) {
    |s| >= 3 && s[0] != '\n' && IsUpper(s[1]) && IsLower(s[2])
  }

  /** Puts an underscore between the groups of each match, and goes on after the match. */
  function FirstPass(s: string): string
    decreases |s|
  {
    if s == "" then ""
    else if WordStartsAfterFirst(s) then
      var end := 2 + LowerRun(s[2..]);
      [s[0], '_'] + s[1..end] + FirstPass(s[end..])
    else [s[0]] + FirstPass(s[1..])
  }

  /** The same for `([a-z0-9])([A-Z])`. */
  function SecondPass(s: string): string
    decreases |s|
  {
    if s == "" then ""
    else if |s| >= 2 && IsLowerOrDigit(s[0]) && IsUpper(s[1]) then [s[0], '_', s[1]] + SecondPass(s[2..])
    else [s[0]] + SecondPass(s[1..])
  }

  /** Lower-casing maps each character on its own. */
  function Lowered(s: string, lower: char -> char): (r: string)
    ensures |r| == |s| && forall i :: 0 <= i < |s| ==> r[i] == lower(s[i])
  {
    seq(|s|, i requires 0 <= i < |s| => lower(s[i]))
  }

  function ToSnakeCase(s: string, lower: char -> char): string {
    Lowered(SecondPass(FirstPass(s)), lower)
  }

  // ---------- The one-scan rule ----------

  /**
   An underscore belongs before the capital at `i` when a lower-case letter or digit precedes it,
   or when it starts a word: something other than a newline precedes it and a lower-case letter follows.
   */
  predicate Boundary(s: string, i: nat) {
    && 0 < i < |s| && IsUpper(s[i])
    && (IsLowerOrDigit(s[i - 1]) || (s[i - 1] != '\n' && i + 1 < |s| && IsLower(s[i + 1])))
  }

  /** The text from position `i` on, with the underscores that belong in it. */
  function Underscored(s: string, i: nat): string
    requires i <= |s|
    decreases |s| - i
  {
    if i == |s| then ""
    else (if Boundary(s, i) then ['_', s[i]] else [s[i]]) + Underscored(s, i + 1)
  }

  // ---------- The passes follow the rule ----------

  lemma FirstPassKeepsFirst(s: string)
    requires s != ""
    ensures FirstPass(s) != "" && FirstPass(s)[0] == s[0]
  {}

  lemma TailOfCons(c: char, t: string)
    ensures ([c] + t)[1..] == t
    ensures t != "" ==> ([c] + t)[1] == t[0] && ([c] + t)[2..] == t[1..]
  {}

  /** A lower-case letter or digit before a capital: the match takes both, and the capital starts no other. */
  lemma SecondPassMatches(c: char, t: string)
    requires t != "" && IsLowerOrDigit(c) && IsUpper(t[0])
    ensures SecondPass([c] + t) == [c, '_'] + SecondPass(t)
  {
    TailOfCons(c, t);
    var rest := SecondPass(t[1..]);
    assert SecondPass(t) == [t[0]] + rest;
    assert [c, '_', t[0]] + rest == [c, '_'] + ([t[0]] + rest);
  }

  lemma SecondPassSkips(c: char, t: string)
    requires !(t != "" && IsLowerOrDigit(c) && IsUpper(t[0]))
    ensures SecondPass([c] + t) == [c] + SecondPass(t)
  {
    TailOfCons(c, t);
  }

  /** The second pass looks at adjacent characters only: its matches cannot overlap. */
  lemma SecondPassStep(c: char, t: string)
    ensures SecondPass([c] + t) ==
            (if t != "" && IsLowerOrDigit(c) && IsUpper(t[0]) then [c, '_'] else [c]) + SecondPass(t)
  {
    if t != "" && IsLowerOrDigit(c) && IsUpper(t[0]) { SecondPassMatches(c, t); } else { SecondPassSkips(c, t); }
  }

  /** Lower-case letters followed by more lower-case letters pass through the second pass. */
  lemma {:induction false} SecondPassThroughRun(run: string, t: string)
    requires run != "" && forall i :: 0 <= i < |run| ==> IsLower(run[i])
    ensures SecondPass(run + t) == run[..|run| - 1] + SecondPass([run[|run| - 1]] + t)
    decreases |run|
  {
    if |run| == 1 {
      assert run == [run[0]];
    } else {
      assert run + t == [run[0]] + (run[1..] + t);
      SecondPassStep(run[0], run[1..] + t);
      SecondPassThroughRun(run[1..], t);
      assert run[..|run| - 1] == [run[0]] + run[1..][..|run| - 2];
    }
  }

  /** No underscore belongs inside a run of lower-case letters. */
  lemma {:induction false} UnderscoredThroughRun(s: string, from: nat, end: nat)
    requires from <= end <= |s| && forall i :: from <= i < end ==> IsLower(s[i])
    ensures Underscored(s, from) == s[from..end] + Underscored(s, end)
    decreases end - from
  {
    if from < end {
      UnderscoredThroughRun(s, from + 1, end);
      assert IsLower(s[from]) && !Boundary(s, from);
      assert Underscored(s, from) == [s[from]] + Underscored(s, from + 1);
      assert [s[from]] + (s[from + 1..end] + Underscored(s, end)) == ([s[from]] + s[from + 1..end]) + Underscored(s, end);
      assert s[from..end] == [s[from]] + s[from + 1..end];
    } else {
      assert s[from..end] == "";
    }
  }

  lemma SuffixIndices(s: string, i: nat)
    requires 0 < i < |s|
    ensures |s[i - 1..]| == |s| - i + 1 && s[i - 1..][0] == s[i - 1] && s[i - 1..][1] == s[i]
    ensures i + 1 < |s| ==> s[i - 1..][2] == s[i + 1]
  {}

  /** Where the first pass does not match, and behind a lower-case letter, only the second pass's pattern makes a boundary. */
  lemma BoundaryLeftToSecondPass(s: string, i: nat)
    requires 0 < i < |s|
    requires IsLower(s[i - 1]) || !WordStartsAfterFirst(s[i - 1..])
    ensures Boundary(s, i) <==> IsLowerOrDigit(s[i - 1]) && IsUpper(s[i])
  {
    SuffixIndices(s, i);
  }

  /** The character before `i`, and the text from `i` on. */
  lemma UnderscoredAt(s: string, i: nat)
    requires 0 < i < |s|
    ensures [s[i - 1]] + Underscored(s, i) ==
            (if Boundary(s, i) then [s[i - 1], '_'] else [s[i - 1]]) + ([s[i]] + Underscored(s, i + 1))
  {
    var rest := Underscored(s, i + 1);
    assert [s[i - 1]] + (['_', s[i]] + rest) == [s[i - 1], '_'] + ([s[i]] + rest);
  }

  /**
   The second pass repairs what the first skips. When the first pass resumes at `i`, either it has
   looked at the boundary before `i` and not matched, or it has just consumed a lower-case letter
   there; in the latter case the second pass inserts what the first no longer can.
   */
  lemma {:induction false} PassesFrom(s: string, i: nat)
    requires 0 < i <= |s|
    requires IsLower(s[i - 1]) || !WordStartsAfterFirst(s[i - 1..])
    ensures SecondPass([s[i - 1]] + FirstPass(s[i..])) == [s[i - 1]] + Underscored(s, i)
    decreases |s| - i, 2
  {
    var rest := FirstPass(s[i..]);
    SecondPassStep(s[i - 1], rest);
    if i < |s| {
      FirstPassKeepsFirst(s[i..]);
      BoundaryLeftToSecondPass(s, i);
      PassesAt(s, i);
      UnderscoredAt(s, i);
    }
  }

  lemma {:induction false} PassesAt(s: string, i: nat)
    requires i < |s|
    ensures SecondPass(FirstPass(s[i..])) == [s[i]] + Underscored(s, i + 1)
    decreases |s| - i, 1
  {
    var rest := s[i..];
    if WordStartsAfterFirst(rest) {
      WordFollows(s, i);
    } else {
      assert rest[1..] == s[i + 1..];
      PassesFrom(s, i + 1);
    }
  }

  /** The end of the match at `i`: past the run of lower-case letters after the capital. */
  function WordEnd(s: string, i: nat): (j: nat)
    requires i < |s| && WordStartsAfterFirst(s[i..])
    ensures i + 3 <= j <= |s|
    ensures forall k :: i + 2 <= k < j ==> IsLower(s[k])
  {
    assert s[i..][2..] == s[i + 2..];
    i + 2 + LowerRun(s[i + 2..])
  }

  lemma FirstPassOfWord(s: string, i: nat)
    requires i < |s| && WordStartsAfterFirst(s[i..])
    ensures var j := WordEnd(s, i);
            FirstPass(s[i..]) == [s[i], '_', s[i + 1]] + (s[i + 2..j] + FirstPass(s[j..]))
  {
    var rest, j := s[i..], WordEnd(s, i);
    assert rest[2..] == s[i + 2..] && rest[j - i..] == s[j..];
    assert rest[1..j - i] == [s[i + 1]] + s[i + 2..j];
  }

  lemma SecondPassOfWord(first: char, capital: char, run: string, tail: string)
    requires IsUpper(capital) && run != "" && forall k :: 0 <= k < |run| ==> IsLower(run[k])
    ensures SecondPass([first, '_', capital] + (run + tail)) ==
            [first, '_', capital] + run[..|run| - 1] + SecondPass([run[|run| - 1]] + tail)
  {
    var t := run + tail;
    assert [first, '_', capital] + t == [first] + (['_'] + ([capital] + t));
    SecondPassStep(first, ['_'] + ([capital] + t));
    SecondPassStep('_', [capital] + t);
    SecondPassStep(capital, t);
    SecondPassThroughRun(run, tail);
  }

  /** The first pass matches at `i`: a capital and its lower-case run follow. */
  lemma {:induction false} WordFollows(s: string, i: nat)
    requires i < |s| && WordStartsAfterFirst(s[i..])
    ensures SecondPass(FirstPass(s[i..])) == [s[i]] + Underscored(s, i + 1)
    decreases |s| - i, 0
  {
    var j := WordEnd(s, i);
    RunOfWord(s, i);
    var head, run, tail := [s[i], '_', s[i + 1]], s[i + 2..j], FirstPass(s[j..]);
    calc {
      SecondPass(FirstPass(s[i..]));
      { FirstPassOfWord(s, i); }
      SecondPass(head + (run + tail));
      { SecondPassOfWord(s[i], s[i + 1], run, tail); }
      head + run[..|run| - 1] + SecondPass([s[j - 1]] + tail);
      { PassesFrom(s, j); }
      head + run[..|run| - 1] + ([s[j - 1]] + Underscored(s, j));
      { Regroup(s[i], s[i + 1], run, Underscored(s, j)); }
      [s[i]] + (['_', s[i + 1]] + (run + Underscored(s, j)));
      { UnderscoredThroughRun(s, i + 2, j); }
      [s[i]] + (['_', s[i + 1]] + Underscored(s, i + 2));
      { CapitalOfWord(s, i); }
      [s[i]] + Underscored(s, i + 1);
    }
  }

  lemma RunOfWord(s: string, i: nat)
    requires i < |s| && WordStartsAfterFirst(s[i..])
    ensures var j := WordEnd(s, i);
            var run := s[i + 2..j];
            && IsUpper(s[i + 1]) && run != "" && run[|run| - 1] == s[j - 1]
            && forall k :: 0 <= k < |run| ==> IsLower(run[k])
  {}

  lemma CapitalOfWord(s: string, i: nat)
    requires i < |s| && WordStartsAfterFirst(s[i..])
    ensures i + 2 < |s| && Underscored(s, i + 1) == ['_', s[i + 1]] + Underscored(s, i + 2)
  {
    assert s[i..][2] == s[i + 2] && Boundary(s, i + 1);
  }

  lemma Regroup(first: char, capital: char, run: string, tail: string)
    requires run != ""
    ensures [first, '_', capital] + run[..|run| - 1] + ([run[|run| - 1]] + tail) ==
            [first] + (['_', capital] + (run + tail))
  {
    assert run == run[..|run| - 1] + [run[|run| - 1]];
  }

  /** For every string, the two regular-expression passes are the one-scan rule. */
  lemma TwoPassesAreOneScan(s: string)
    ensures SecondPass(FirstPass(s)) == Underscored(s, 0)
  {
    if s != "" {
      PassesAt(s, 0);
      assert s[0..] == s;
    }
  }

  lemma SnakeCaseIsOneScan(s: string, lower: char -> char)
    ensures ToSnakeCase(s, lower) == Lowered(Underscored(s, 0), lower)
  {
    TwoPassesAreOneScan(s);
  }

  // ---------- Consequences ----------

  /** Lower-casing leaves no capital and is done after one application. */
  ghost predicate LowerCases(lower: char -> char) {
    forall c :: !IsUpper(lower(c)) && lower(lower(c)) == lower(c)
  }

  lemma {:induction false} NoCapitalsNoUnderscores(s: string, i: nat)
    requires i <= |s| && forall k :: 0 <= k < |s| ==> !IsUpper(s[k])
    ensures Underscored(s, i) == s[i..]
    decreases |s| - i
  {
    if i < |s| { NoCapitalsNoUnderscores(s, i + 1); }
  }

  /** An operation name is its own snake case. */
  lemma SnakeCaseIsIdempotent(s: string, lower: char -> char)
    requires LowerCases(lower)
    ensures ToSnakeCase(ToSnakeCase(s, lower), lower) == ToSnakeCase(s, lower)
  {
    var once := ToSnakeCase(s, lower);
    forall k | 0 <= k < |once| ensures !IsUpper(once[k]) && lower(once[k]) == once[k] {
      assert once[k] == lower(SecondPass(FirstPass(s))[k]);
    }
    TwoPassesAreOneScan(once);
    NoCapitalsNoUnderscores(once, 0);
    assert Lowered(once, lower) == once;
  }

  function Erase(s: string, c: char): string {
    if s == "" then "" else (if s[0] == c then "" else [s[0]]) + Erase(s[1..], c)
  }

  lemma EraseFirst(c: char, t: string)
    ensures Erase([c] + t, '_') == (if c == '_' then "" else [c]) + Erase(t, '_')
  {
    TailOfCons(c, t);
  }

  lemma {:induction false} EraseUnderscored(s: string, i: nat)
    requires i <= |s|
    ensures Erase(Underscored(s, i), '_') == Erase(s[i..], '_')
    decreases |s| - i
  {
    if i < |s| {
      EraseUnderscored(s, i + 1);
      var rest := Underscored(s, i + 1);
      EraseFirst(s[i], rest);
      EraseFirst('_', [s[i]] + rest);
      assert ['_', s[i]] + rest == ['_'] + ([s[i]] + rest);
      EraseFirst(s[i], s[i + 1..]);
      assert s[i..] == [s[i]] + s[i + 1..];
    }
  }

  /** Nothing is lost or moved: without underscores the result is the name without its own. */
  lemma OnlyUnderscoresAreAdded(s: string)
    ensures Erase(SecondPass(FirstPass(s)), '_') == Erase(s, '_')
  {
    TwoPassesAreOneScan(s);
    EraseUnderscored(s, 0);
    assert s[0..] == s;
  }

  // ---------- When two names give one operation name ----------

  ghost predicate KeepsUnderscoresApart(lower: char -> char) {
    forall c :: lower(c) == '_' <==> c == '_'
  }

  /** The letters of a name, each with the number of underscores before it, and the number after the last. */
  datatype Spelling = Spelling(letters: seq<(nat, char)>, trailing: nat)

  function Preceded(n: nat, c: char, rest: Spelling): Spelling {
    rest.(letters := [(n, c)] + rest.letters)
  }

  /**
   The spelling of a field name from `i` on, after `pending` underscores: its letters lower-cased, each
   preceded by the underscores the name has there, and one more where a boundary lies.
   */
  function WordsOf(s: string, lower: char -> char, i: nat, pending: nat): Spelling
    requires i <= |s|
    decreases |s| - i
  {
    if i == |s| then Spelling([], pending)
    else if s[i] == '_' then WordsOf(s, lower, i + 1, pending + 1)
    else Preceded(pending + (if Boundary(s, i) then 1 else 0), lower(s[i]), WordsOf(s, lower, i + 1, 0))
  }

  /** The spelling of a finished operation name. */
  function Spell(r: string, pending: nat): Spelling {
    if r == "" then Spelling([], pending)
    else if r[0] == '_' then Spell(r[1..], pending + 1)
    else Preceded(pending, r[0], Spell(r[1..], 0))
  }

  function Underscores(n: nat): string {
    seq(n, _ => '_')
  }

  function Write(sp: Spelling): string
    decreases |sp.letters|
  {
    if sp.letters == [] then Underscores(sp.trailing)
    else Underscores(sp.letters[0].0) + [sp.letters[0].1] + Write(sp.(letters := sp.letters[1..]))
  }

  lemma WriteFirst(n: nat, c: char, rest: Spelling)
    ensures Write(Preceded(n, c, rest)) == Underscores(n) + [c] + Write(rest)
  {
    assert Preceded(n, c, rest).letters[1..] == rest.letters;
  }

  /** A name can be written back from its spelling, so different names are spelled differently. */
  lemma {:induction false} SpellingDetermines(r: string, pending: nat)
    ensures Write(Spell(r, pending)) == Underscores(pending) + r
    decreases |r|
  {
    if r == "" {
    } else if r[0] == '_' {
      SpellingDetermines(r[1..], pending + 1);
      assert Underscores(pending + 1) == Underscores(pending) + ['_'];
      assert r == ['_'] + r[1..];
    } else {
      SpellingDetermines(r[1..], 0);
      WriteFirst(pending, r[0], Spell(r[1..], 0));
      assert Underscores(pending) + [r[0]] + r[1..] == Underscores(pending) + r;
    }
  }

  lemma SpellFirst(c: char, t: string, pending: nat)
    ensures Spell([c] + t, pending) == if c == '_' then Spell(t, pending + 1) else Preceded(pending, c, Spell(t, 0))
  {
    TailOfCons(c, t);
  }

  lemma LoweredUnderscored(s: string, lower: char -> char, i: nat)
    requires i < |s|
    ensures var rest := Lowered(Underscored(s, i + 1), lower);
            Lowered(Underscored(s, i), lower) ==
            if Boundary(s, i) then [lower('_')] + ([lower(s[i])] + rest) else [lower(s[i])] + rest
  {}

  /** The operation name of a field is spelled as the field's words are. */
  lemma {:induction false} SnakeCaseIsSpelledAs(s: string, lower: char -> char, i: nat, pending: nat)
    requires i <= |s| && KeepsUnderscoresApart(lower)
    ensures Spell(Lowered(Underscored(s, i), lower), pending) == WordsOf(s, lower, i, pending)
    decreases |s| - i
  {
    if i < |s| {
      var rest := Lowered(Underscored(s, i + 1), lower);
      LoweredUnderscored(s, lower, i);
      SpellFirst(lower('_'), [lower(s[i])] + rest, pending);
      SpellFirst(lower(s[i]), rest, pending);
      SpellFirst(lower(s[i]), rest, pending + 1);
      SnakeCaseIsSpelledAs(s, lower, i + 1, pending + 1);
      SnakeCaseIsSpelledAs(s, lower, i + 1, 0);
    }
  }

  /** Two field names give one operation name exactly when their words are spelled alike, underscores of their own included. */
  lemma NamesCollideExactlyWhen(s: string, t: string, lower: char -> char)
    requires KeepsUnderscoresApart(lower)
    ensures ToSnakeCase(s, lower) == ToSnakeCase(t, lower) <==> WordsOf(s, lower, 0, 0) == WordsOf(t, lower, 0, 0)
  {
    SnakeCaseIsOneScan(s, lower);
    SnakeCaseIsOneScan(t, lower);
    SnakeCaseIsSpelledAs(s, lower, 0, 0);
    SnakeCaseIsSpelledAs(t, lower, 0, 0);
    SpellingDetermines(ToSnakeCase(s, lower), 0);
    SpellingDetermines(ToSnakeCase(t, lower), 0);
    assert Underscores(0) + ToSnakeCase(s, lower) == ToSnakeCase(s, lower);
    assert Underscores(0) + ToSnakeCase(t, lower) == ToSnakeCase(t, lower);
  }

  /** An underscore of a name's own can stand where another name has a boundary. */
  lemma UnderscoreCollidesWithBoundary(lower: char -> char)
    requires KeepsUnderscoresApart(lower) && lower('A') == lower('a')
    ensures ToSnakeCase("GoA", lower) == ToSnakeCase("Go_a", lower)
  {
    NamesCollideExactlyWhen("GoA", "Go_a", lower);
    assert WordsOf("GoA", lower, 3, 0) == Spelling([], 0) == WordsOf("Go_a", lower, 4, 0);
    assert WordsOf("GoA", lower, 2, 0) == Preceded(1, lower('A'), Spelling([], 0)) == WordsOf("Go_a", lower, 3, 1);
    assert WordsOf("GoA", lower, 1, 0) == WordsOf("Go_a", lower, 1, 0);
  }

  /** Two different field names can give one operation name. */
  lemma NamesCanCollide(lower: char -> char)
    requires lower('A') == 'a' && lower('B') == 'b' && lower('b') == 'b'
    ensures "AB" != "Ab" && ToSnakeCase("AB", lower) == "ab" == ToSnakeCase("Ab", lower)
  {
    TwoPassesAreOneScan("AB");
    TwoPassesAreOneScan("Ab");
    assert Underscored("AB", 2) == "" && Underscored("Ab", 2) == "";
    assert Underscored("AB", 1) == "B" && Underscored("Ab", 1) == "b";
  }
}
