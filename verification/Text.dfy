/** Slugs (core/text.py). */
module Text {

  /** The two Unicode tables the code relies on: lower-casing of a character, and what counts as white space. */
  datatype CharTable = CharTable(lower: char -> string, space: char -> bool)

  predicate SlugChar(c: char) {
    'a' <= c <= 'z' || '0' <= c <= '9'
  }

  /** All that is assumed of the tables: slug characters and the hyphen have no case and are no space; spaces have no letters. */
  ghost predicate Sound(t: CharTable) {
    && (forall c {:trigger t.lower(c)} :: SlugChar(c) || c == '-' ==> t.lower(c) == [c])
    && (forall c {:trigger t.space(c)} :: SlugChar(c) || c == '-' ==> !t.space(c))
    && (forall c {:trigger t.space(c)} :: t.space(c) ==> NoSlugChar(t.lower(c)))
  }

  /** The ASCII part of the tables is an instance. */
  const ASCII: CharTable :=
    CharTable((c: char) => if 'A' <= c <= 'Z' then [(c as int + 32) as char] else [c],
              (c: char) => c == ' ' || '\t' <= c <= '\r')

  lemma AsciiIsSound()
    ensures Sound(ASCII)
  {
  }

  predicate NoSlugChar(s: string) {
    forall i :: 0 <= i < |s| ==> !SlugChar(s[i])
  }

  function Lower(t: CharTable, s: string): string {
    if s == "" then "" else t.lower(s[0]) + Lower(t, s[1..])
  }

  function StripLeft(s: string, drop: char -> bool): string {
    if s != "" && drop(s[0]) then StripLeft(s[1..], drop) else s
  }

  function StripRight(s: string, drop: char -> bool): string {
    if s != "" && drop(s[|s| - 1]) then StripRight(s[..|s| - 1], drop) else s
  }

  /** str.strip */
  function Strip(s: string, drop: char -> bool): string {
    StripRight(StripLeft(s, drop), drop)
  }

  predicate Hyphen(c: char) {
    c == '-'
  }

  /** The length of the leading stretch of characters that are (or are not) slug characters. */
  function Stretch(s: string, slug: bool): (n: nat)
    ensures n <= |s|
    ensures forall i :: 0 <= i < n ==> SlugChar(s[i]) == slug
    ensures n < |s| ==> SlugChar(s[n]) != slug
  {
    if s != "" && SlugChar(s[0]) == slug then 1 + Stretch(s[1..], slug) else 0
  }

  /** re.sub: every maximal run of other characters becomes one hyphen. */
  function Hyphenate(s: string): string {
    if s == "" then ""
    else if SlugChar(s[0]) then [s[0]] + Hyphenate(s[1..])
    else "-" + Hyphenate(s[Stretch(s, false)..])
  }

  function Slugify(t: CharTable, value: string): string {
    var s := Strip(Hyphenate(Lower(t, Strip(value, t.space))), Hyphen);
    if s == "" then "model" else s
  }

  // ---------- What a slug is ----------

  /** Non-empty; only slug characters and hyphens; no hyphen at either end, and no two in a row. */
  ghost predicate IsSlug(s: string) {
    && s != "" && SlugChar(s[0]) && SlugChar(s[|s| - 1])
    && SingleHyphens(s)
  }

  ghost predicate SingleHyphens(s: string) {
    && (forall i :: 0 <= i < |s| ==> SlugChar(s[i]) || s[i] == '-')
    && (forall i, j :: 0 <= i < j < |s| && j == i + 1 ==> SlugChar(s[i]) || SlugChar(s[j]))
  }

  /** The maximal runs of slug characters. */
  function Words(s: string): seq<string> {
    if s == "" then []
    else if SlugChar(s[0]) then
      var n := Stretch(s, true);
      [s[..n]] + Words(s[n..])
    else Words(s[1..])
  }

  function Join(words: seq<string>): string {
    if |words| == 0 then "" else if |words| == 1 then words[0] else words[0] + "-" + Join(words[1..])
  }

  // ---------- Slugify is the joined runs ----------

  lemma {:induction false} LowerAppend(t: CharTable, a: string, b: string)
    ensures Lower(t, a + b) == Lower(t, a) + Lower(t, b)
  {
    if a == "" {
      assert a + b == b;
    } else {
      LowerAppend(t, a[1..], b);
      assert (a + b)[1..] == a[1..] + b;
    }
  }

  lemma {:induction false} LowerSpaces(t: CharTable, s: string)
    requires Sound(t) && forall i :: 0 <= i < |s| ==> t.space(s[i])
    ensures NoSlugChar(Lower(t, s))
  {
    if s != "" {
      LowerSpaces(t, s[1..]);
    }
  }

  lemma {:induction false} StripLeftSplits(s: string, drop: char -> bool)
    ensures var r := StripLeft(s, drop);
            |r| <= |s| && s[|s| - |r|..] == r && (forall i :: 0 <= i < |s| - |r| ==> drop(s[i])) && (r != "" ==> !drop(r[0]))
  {
    if s != "" && drop(s[0]) {
      StripLeftSplits(s[1..], drop);
      var r := StripLeft(s[1..], drop);
      assert s[|s| - |r|..] == s[1..][|s| - 1 - |r|..];
      forall i | 0 <= i < |s| - |r| ensures drop(s[i]) {
        if i > 0 {
          assert drop(s[1..][i - 1]);
        }
      }
    }
  }

  lemma {:induction false} StripRightSplits(s: string, drop: char -> bool)
    ensures var r := StripRight(s, drop);
            |r| <= |s| && s[..|r|] == r && (forall i :: |r| <= i < |s| ==> drop(s[i])) && (r != "" ==> !drop(r[|r| - 1]))
  {
    if s != "" && drop(s[|s| - 1]) {
      StripRightSplits(s[..|s| - 1], drop);
      var r := StripRight(s[..|s| - 1], drop);
      assert s[..|r|] == s[..|s| - 1][..|r|];
      forall i | |r| <= i < |s| ensures drop(s[i]) {
        if i < |s| - 1 {
          assert drop(s[..|s| - 1][i]);
        }
      }
    }
  }

  /** Stripping removes a prefix and a suffix of dropped characters, and leaves none at the ends. */
  lemma StripSplits(s: string, drop: char -> bool) returns (front: string, back: string)
    ensures s == front + Strip(s, drop) + back
    ensures forall i :: 0 <= i < |front| ==> drop(front[i])
    ensures forall i :: 0 <= i < |back| ==> drop(back[i])
    ensures var r := Strip(s, drop); r != "" ==> !drop(r[0]) && !drop(r[|r| - 1])
  {
    StripLeftSplits(s, drop);
    var l := StripLeft(s, drop);
    StripRightSplits(l, drop);
    var r := Strip(s, drop);
    front, back := s[..|s| - |l|], l[|r|..];
    assert l == r + back;
    assert s == front + l;
  }

  lemma {:induction false} WordsAfterGap(gap: string, s: string)
    requires NoSlugChar(gap)
    ensures Words(gap + s) == Words(s)
  {
    if gap == "" {
      assert gap + s == s;
    } else {
      WordsAfterGap(gap[1..], s);
      assert (gap + s)[1..] == gap[1..] + s;
    }
  }

  lemma {:induction false} WordsBeforeGap(s: string, gap: string)
    requires NoSlugChar(gap)
    ensures Words(s + gap) == Words(s)
    decreases |s|
  {
    if s == "" {
      WordsAfterGap(gap, "");
      assert s + gap == gap + "";
    } else if SlugChar(s[0]) {
      var n := Stretch(s, true);
      StretchStops(s + gap, true, n);
      WordsBeforeGap(s[n..], gap);
      assert (s + gap)[n..] == s[n..] + gap && (s + gap)[..n] == s[..n];
    } else {
      WordsBeforeGap(s[1..], gap);
      assert (s + gap)[1..] == s[1..] + gap;
    }
  }

  /** The stretch is determined by where the character class changes. */
  lemma {:induction false} StretchStops(s: string, slug: bool, n: nat)
    requires n <= |s| && (forall i :: 0 <= i < n ==> SlugChar(s[i]) == slug) && (n < |s| ==> SlugChar(s[n]) != slug)
    ensures Stretch(s, slug) == n
  {
    if n > 0 {
      StretchStops(s[1..], slug, n - 1);
    }
  }

  /** White space at the ends contributes no run. */
  lemma WordsOfStripped(t: CharTable, value: string)
    requires Sound(t)
    ensures Words(Lower(t, Strip(value, t.space))) == Words(Lower(t, value))
  {
    var front, back := StripSplits(value, t.space);
    var core := Strip(value, t.space);
    LowerAppend(t, front + core, back);
    LowerAppend(t, front, core);
    LowerSpaces(t, front);
    LowerSpaces(t, back);
    WordsBeforeGap(Lower(t, front) + Lower(t, core), Lower(t, back));
    WordsAfterGap(Lower(t, front), Lower(t, core));
  }

  lemma {:induction false} HyphenateRun(run: string, rest: string)
    requires forall i :: 0 <= i < |run| ==> SlugChar(run[i])
    ensures Hyphenate(run + rest) == run + Hyphenate(rest)
  {
    if run == "" {
      assert run + rest == rest;
    } else {
      HyphenateRun(run[1..], rest);
      assert (run + rest)[1..] == run[1..] + rest;
    }
  }

  /** Whether the hyphenated form begins (ends) with a hyphen that belongs to no pair of runs. */
  function Lead(s: string): string {
    if s != "" && !SlugChar(s[0]) then "-" else ""
  }

  function Trail(s: string): string {
    if s != "" && !SlugChar(s[|s| - 1]) && |Words(s)| > 0 then "-" else ""
  }

  /** Hyphenate is the joined runs, with at most one stray hyphen at each end. */
  lemma {:induction false} HyphenateIsJoin(s: string)
    ensures Hyphenate(s) == Lead(s) + Join(Words(s)) + Trail(s)
    decreases |s|
  {
    if s != "" {
      if SlugChar(s[0]) {
        RunThenRest(s);
      } else {
        GapThenRest(s);
      }
    }
  }

  /** Behind a leading gap, the words and the trailing hyphen are those of the rest. */
  lemma GapSplits(s: string, rest: string)
    requires s != "" && !SlugChar(s[0]) && rest == s[Stretch(s, false)..]
    ensures Hyphenate(s) == "-" + Hyphenate(rest) && Words(s) == Words(rest)
    ensures rest == "" ==> Words(s) == []
    ensures rest != "" ==> SlugChar(rest[0]) && Trail(s) == Trail(rest)
  {
    var n := Stretch(s, false);
    WordsAfterGap(s[..n], rest);
    assert s == s[..n] + rest;
    hide Hyphenate, Words;
  }

  lemma {:induction false} GapThenRest(s: string)
    requires s != "" && !SlugChar(s[0])
    ensures Hyphenate(s) == Lead(s) + Join(Words(s)) + Trail(s)
    decreases |s|, 0
  {
    var rest := s[Stretch(s, false)..];
    GapSplits(s, rest);
    hide Hyphenate, Words, Stretch;
    if rest != "" {
      HyphenateIsJoin(rest);
      assert Lead(s) == "-" && Lead(rest) == "";
      hide Join, Lead, Trail, SlugChar;
      GlueGap(Join(Words(rest)), Trail(rest));
    }
  }

  lemma GlueGap(words: string, trail: string)
    ensures "-" + ("" + words + trail) == "-" + words + trail
  {
    assert "" + words == words;
  }

  /** Behind a leading run, the words are that run and those of the rest. */
  lemma RunSplits(s: string, rest: string)
    requires s != "" && SlugChar(s[0]) && rest == s[Stretch(s, true)..]
    ensures var run := s[..Stretch(s, true)];
            Hyphenate(s) == run + Hyphenate(rest) && Words(s) == [run] + Words(rest)
    ensures rest == "" ==> Trail(s) == "" && s[..Stretch(s, true)] == s
    ensures rest != "" ==> Lead(rest) == "-" && (Words(rest) == [] ==> Trail(rest) == "") &&
                           (Trail(s) == if Words(rest) == [] then "-" else Trail(rest))
  {
    var n := Stretch(s, true);
    HyphenateRun(s[..n], rest);
    assert s == s[..n] + rest;
    NoWords(rest);
    hide Hyphenate, Words;
  }

  lemma {:induction false} RunThenRest(s: string)
    requires s != "" && SlugChar(s[0])
    ensures Hyphenate(s) == Lead(s) + Join(Words(s)) + Trail(s)
    decreases |s|, 0
  {
    var run, rest := s[..Stretch(s, true)], s[Stretch(s, true)..];
    RunSplits(s, rest);
    assert Lead(s) == "";
    if rest != "" {
      hide Hyphenate, Words, Stretch, SlugChar, Join, Lead, Trail;
      HyphenateIsJoin(rest);
      Glue(run, Words(rest), Trail(rest));
    }
  }

  lemma Glue(run: string, words: seq<string>, trail: string)
    requires words == [] ==> trail == ""
    ensures run + ("-" + Join(words) + trail) == "" + Join([run] + words) + (if words == [] then "-" else trail)
  {
    assert ([run] + words)[1..] == words;
    if words != [] {
      assert run + ("-" + Join(words) + trail) == run + "-" + Join(words) + trail;
    }
  }

  lemma {:induction false} NoWords(s: string)
    ensures Words(s) == [] ==> NoSlugChar(s)
  {
    if s != "" && !SlugChar(s[0]) {
      NoWords(s[1..]);
      assert forall i :: 0 < i < |s| ==> s[i] == s[1..][i - 1];
    }
  }

  /** Dropping the stray hyphens leaves exactly the joined runs. */
  lemma StripStray(lead: string, core: string, trail: string)
    requires (lead == "" || lead == "-") && (trail == "" || trail == "-")
    requires core != "" ==> !Hyphen(core[0]) && !Hyphen(core[|core| - 1])
    requires core == "" ==> trail == ""
    ensures Strip(lead + core + trail, Hyphen) == core
  {
    var s := lead + core + trail;
    assert s[|lead|..] == core + trail;
    assert StripLeft(core + trail, Hyphen) == core + trail by {
      if core != "" {
        assert (core + trail)[0] == core[0];
      }
    }
    assert StripLeft(s, Hyphen) == core + trail by {
      if lead == "-" {
        assert s[0] == '-' && s[1..] == core + trail;
      } else {
        assert s == core + trail;
      }
    }
    if trail == "-" {
      assert (core + trail)[..|core|] == core && (core + trail)[|core|] == '-';
      assert StripRight(core, Hyphen) == core;
    } else {
      assert core + trail == core;
    }
  }

  lemma {:induction false} JoinEnds(s: string)
    ensures var j := Join(Words(s));
            (j == "" <==> Words(s) == []) && (j != "" ==> SlugChar(j[0]) && SlugChar(j[|j| - 1]))
    decreases |s|
  {
    if s != "" {
      if SlugChar(s[0]) {
        var n := Stretch(s, true);
        JoinEnds(s[n..]);
        assert Words(s)[0] == s[..n] && Words(s)[1..] == Words(s[n..]);
      } else {
        JoinEnds(s[1..]);
      }
    }
  }

  /**
   * The slug of a name is its lower-cased form cut into the maximal runs of [a-z0-9], joined by single hyphens;
   * a name without any such run becomes "model".
   */
  lemma SlugifyIsJoinedWords(t: CharTable, value: string)
    requires Sound(t)
    ensures Slugify(t, value) == if Words(Lower(t, value)) == [] then "model" else Join(Words(Lower(t, value)))
  {
    var s := Lower(t, Strip(value, t.space));
    WordsOfStripped(t, value);
    HyphenateIsJoin(s);
    JoinEnds(s);
    StripStray(Lead(s), Join(Words(s)), Trail(s));
  }

  // ---------- What a slug keeps of a name ----------

  /** Lower-casing goes character by character. */
  lemma LowerOfChar(t: CharTable, c: char)
    ensures Lower(t, [c]) == t.lower(c)
  {
    assert [c][1..] == "";
    assert t.lower(c) + "" == t.lower(c);
  }

  /** The same character, or the same ASCII letter in the other case. */
  predicate CaseVariant(c: char, d: char) {
    || c == d
    || ('A' <= c <= 'Z' && d as int == c as int + 32)
    || ('A' <= d <= 'Z' && c as int == d as int + 32)
  }

  predicate SameButCase(a: string, b: string) {
    |a| == |b| && forall i :: 0 <= i < |a| ==> CaseVariant(a[i], b[i])
  }

  lemma {:induction false} LowerCaseBlind(a: string, b: string)
    requires SameButCase(a, b)
    ensures Lower(ASCII, a) == Lower(ASCII, b)
  {
    if a != "" {
      LowerCaseBlind(a[1..], b[1..]);
      assert CaseVariant(a[0], b[0]);
    }
  }

  /** Names that differ only in the case of letters get the same slug. */
  lemma SlugifyCaseBlind(a: string, b: string)
    requires SameButCase(a, b)
    ensures Slugify(ASCII, a) == Slugify(ASCII, b)
  {
    AsciiIsSound();
    SlugifyIsJoinedWords(ASCII, a);
    SlugifyIsJoinedWords(ASCII, b);
    LowerCaseBlind(a, b);
  }

  /** The slug characters of a string, in order. */
  function Kept(s: string): string {
    if s == "" then "" else (if SlugChar(s[0]) then [s[0]] else "") + Kept(s[1..])
  }

  /** The ASCII letters and digits of a name, in order, the letters in lower case. */
  function Letters(s: string): string {
    if s == "" then ""
    else if 'A' <= s[0] <= 'Z' then [(s[0] as int + 32) as char] + Letters(s[1..])
    else if 'a' <= s[0] <= 'z' || '0' <= s[0] <= '9' then [s[0]] + Letters(s[1..])
    else Letters(s[1..])
  }

  lemma {:induction false} KeptAppend(a: string, b: string)
    ensures Kept(a + b) == Kept(a) + Kept(b)
  {
    if a == "" {
      assert a + b == b;
    } else {
      KeptAppend(a[1..], b);
      assert (a + b)[1..] == a[1..] + b && (a + b)[0] == a[0];
      var first := if SlugChar(a[0]) then [a[0]] else "";
      assert Kept(a) == first + Kept(a[1..]) && Kept(a + b) == first + Kept(a[1..] + b);
      hide Kept, SlugChar;
      Regroup(first, Kept(a[1..]), Kept(b));
    }
  }

  lemma Regroup(a: string, b: string, c: string)
    ensures a + (b + c) == a + b + c
  {
  }

  lemma {:induction false} KeptRun(s: string)
    requires forall i :: 0 <= i < |s| ==> SlugChar(s[i])
    ensures Kept(s) == s
  {
    if s != "" {
      KeptRun(s[1..]);
    }
  }

  /** Joining the runs loses no letter and no digit. */
  lemma {:induction false} KeptJoin(s: string)
    ensures Kept(Join(Words(s))) == Kept(s)
    decreases |s|
  {
    if s != "" {
      if SlugChar(s[0]) {
        var n := Stretch(s, true);
        var run, rest := s[..n], s[n..];
        KeptJoin(rest);
        KeptRun(run);
        KeptAppend(run, rest);
        assert s == run + rest;
        assert Words(s) == [run] + Words(rest);
        hide Words, Stretch, SlugChar;
        KeptJoinedRun(run, Words(rest));
      } else {
        KeptJoin(s[1..]);
      }
    }
  }

  lemma KeptJoinedRun(run: string, words: seq<string>)
    ensures Kept(Join([run] + words)) == Kept(run) + Kept(Join(words))
  {
    assert ([run] + words)[1..] == words;
    if words == [] {
      assert Join([run] + words) == run;
    } else {
      KeptAppend(run + "-", Join(words));
      KeptAppend(run, "-");
      assert Kept("-") == "";
    }
  }

  lemma {:induction false} KeptLower(s: string)
    ensures Kept(Lower(ASCII, s)) == Letters(s)
  {
    if s != "" {
      KeptLower(s[1..]);
      KeptAppend(ASCII.lower(s[0]), Lower(ASCII, s[1..]));
      KeptAppend(ASCII.lower(s[0]), "");
      assert ASCII.lower(s[0])[1..] == "";
    }
  }

  /** The slug of an ASCII name has all its letters and digits, in order and in lower case; without any it is "model". */
  lemma SlugKeepsLetters(value: string)
    ensures if Letters(value) == "" then Slugify(ASCII, value) == "model" else Kept(Slugify(ASCII, value)) == Letters(value)
  {
    AsciiIsSound();
    var s := Lower(ASCII, value);
    SlugifyIsJoinedWords(ASCII, value);
    KeptJoin(s);
    KeptLower(value);
    NoWords(s);
    KeptNothing(s);
    hide Slugify, Join, Words, Lower;
  }

  /** Nothing is kept exactly if there is no run. */
  lemma {:induction false} KeptNothing(s: string)
    ensures Kept(s) == "" <==> Words(s) == []
  {
    if s != "" && !SlugChar(s[0]) {
      KeptNothing(s[1..]);
    }
  }

  // ---------- Slugs are exactly the fixed points ----------

  lemma {:induction false} HyphenateSingles(s: string)
    ensures SingleHyphens(Hyphenate(s))
    ensures s != "" ==> Hyphenate(s) != "" && (SlugChar(s[0]) ==> Hyphenate(s)[0] == s[0])
    decreases |s|
  {
    if s != "" {
      if SlugChar(s[0]) {
        HyphenateSingles(s[1..]);
      } else {
        HyphenateSingles(s[Stretch(s, false)..]);
      }
    }
  }

  lemma SingleHyphensInside(front: string, s: string, back: string)
    requires SingleHyphens(front + s + back)
    ensures SingleHyphens(s)
  {
    var h := front + s + back;
    assert forall i :: 0 <= i < |s| ==> s[i] == h[|front| + i];
    forall i, j | 0 <= i < j < |s| && j == i + 1 ensures SlugChar(s[i]) || SlugChar(s[j]) {
      assert SlugChar(h[|front| + i]) || SlugChar(h[|front| + j]);
    }
  }

  /** Every result is a slug. */
  lemma SlugifyIsSlug(t: CharTable, value: string)
    ensures IsSlug(Slugify(t, value))
  {
    HyphenateSingles(Lower(t, Strip(value, t.space)));
    StrippedIsSlug(Hyphenate(Lower(t, Strip(value, t.space))));
  }

  lemma StrippedIsSlug(h: string)
    requires SingleHyphens(h)
    ensures Strip(h, Hyphen) != "" ==> IsSlug(Strip(h, Hyphen))
  {
    var front, back := StripSplits(h, Hyphen);
    hide Strip;
    SingleHyphensInside(front, Strip(h, Hyphen), back);
  }

  lemma {:induction false} LowerFixed(t: CharTable, s: string)
    requires Sound(t) && SingleHyphens(s)
    ensures Lower(t, s) == s
  {
    if s != "" {
      LowerFixed(t, s[1..]);
      assert s == [s[0]] + s[1..];
    }
  }

  lemma {:induction false} HyphenateFixed(s: string)
    requires SingleHyphens(s)
    ensures Hyphenate(s) == s
  {
    if s != "" {
      HyphenateFixed(s[1..]);
      assert s == [s[0]] + s[1..];
      if !SlugChar(s[0]) {
        StretchStops(s, false, 1);
      }
    }
  }

  lemma StripFixed(s: string, drop: char -> bool)
    requires s != "" ==> !drop(s[0]) && !drop(s[|s| - 1])
    ensures Strip(s, drop) == s
  {
  }

  /** Slugs are exactly the strings slugify leaves alone; so slugify is idempotent. */
  lemma SlugifyFixesSlugs(t: CharTable, s: string)
    requires Sound(t)
    ensures Slugify(t, s) == s <==> IsSlug(s)
    ensures Slugify(t, Slugify(t, s)) == Slugify(t, s)
  {
    SlugifyIsSlug(t, s);
    FixedPoint(t, Slugify(t, s));
    if IsSlug(s) {
      FixedPoint(t, s);
    }
  }

  lemma FixedPoint(t: CharTable, s: string)
    requires Sound(t) && IsSlug(s)
    ensures Slugify(t, s) == s
  {
    StripFixed(s, t.space);
    LowerFixed(t, s);
    HyphenateFixed(s);
    StripFixed(s, Hyphen);
  }
}
