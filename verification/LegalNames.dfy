/** Stripping legal forms from the words of a company name. */
module LegalNames {
  import opened Common

  // ---------------------------------------------------------------- strings

  function Lower(c: char): char {
    if 'A' <= c <= 'Z' then 'a' + (c - 'A') else c
  }

  function ToLowerCase(s: string): string {
    seq(|s|, i requires 0 <= i < |s| => Lower(s[i]))
  }

  function Without(s: string, chars: string): string {
    if s == "" then "" else (if s[0] in chars then "" else [s[0]]) + Without(s[1..], chars)
  }

  function Join(words: seq<string>, separator: string): string {
    if words == [] then ""
    else if |words| == 1 then words[0]
    else words[0] + separator + Join(words[1..], separator)
  }

  function Concat(parts: seq<string>): string {
    if parts == [] then "" else parts[0] + Concat(parts[1..])
  }

  /** The parts between the separators; there is always one. */
  function Split(s: string, separator: char): (parts: seq<string>)
    ensures parts != []
  {
    if s == "" then [""]
    else
      var rest := Split(s[1..], separator);
      if s[0] == separator then [""] + rest else [[s[0]] + rest[0]] + rest[1..]
  }

  lemma {:induction false} JoinWithNothing(words: seq<string>)
    ensures Join(words, "") == Concat(words)
  {
    if |words| > 1 {
      JoinWithNothing(words[1..]);
    } else if |words| == 1 {
      assert words[0] + Concat(words[1..]) == words[0];
    }
  }

  // ---------------------------------------------------------------- what the string functions keep

  const CAPITALS := "ABCDEFGHIJKLMNOPQRSTUVWXYZ"
  const SMALL_LETTERS := "abcdefghijklmnopqrstuvwxyz"

  lemma IsCapital(c: char)
    ensures 'A' <= c <= 'Z' ==> c in CAPITALS
  {
    assert forall k :: 0 <= k < 26 ==> CAPITALS[k] as int == 65 + k;
    if 'A' <= c <= 'Z' {
      assert CAPITALS[c as int - 65] == c;
    }
  }

  /** A capital becomes the small letter at its place in the alphabet, and every other character stays. */
  lemma LowerCaseIsByAlphabet(s: string)
    ensures |ToLowerCase(s)| == |s|
    ensures forall i, k :: 0 <= i < |s| && 0 <= k < 26 && s[i] == CAPITALS[k] ==> ToLowerCase(s)[i] == SMALL_LETTERS[k]
    ensures forall i :: 0 <= i < |s| && s[i] !in CAPITALS ==> ToLowerCase(s)[i] == s[i]
  {
    assert forall k :: 0 <= k < 26 ==> CAPITALS[k] as int == 65 + k && SMALL_LETTERS[k] as int == 97 + k;
    forall i | 0 <= i < |s| ensures 'A' <= s[i] <= 'Z' ==> s[i] in CAPITALS {
      IsCapital(s[i]);
    }
  }

  /** Removing characters goes character by character. */
  lemma {:induction false} WithoutAppend(a: string, b: string, chars: string)
    ensures Without(a + b, chars) == Without(a, chars) + Without(b, chars)
  {
    if a == "" {
      assert a + b == b;
    } else {
      assert (a + b)[1..] == a[1..] + b && (a + b)[0] == a[0];
      WithoutAppend(a[1..], b, chars);
      Reassociate(if a[0] in chars then "" else [a[0]], Without(a[1..], chars), Without(b, chars));
    }
  }

  lemma Reassociate(a: string, b: string, c: string)
    ensures a + (b + c) == a + b + c
  {
  }

  lemma {:induction false} WithoutKeepsOthers(s: string, chars: string)
    ensures forall c :: c in Without(s, chars) <==> c in s && c !in chars
    ensures (forall c :: c in s ==> c !in chars) ==> Without(s, chars) == s
  {
    if s != "" {
      assert s == [s[0]] + s[1..];
      WithoutKeepsOthers(s[1..], chars);
    }
  }

  lemma {:induction false} LowerCaseOfJoin(words: seq<string>, separator: string)
    requires ToLowerCase(separator) == separator
    ensures ToLowerCase(Join(words, separator)) == Join(seq(|words|, i requires 0 <= i < |words| => ToLowerCase(words[i])), separator)
  {
    var lower := seq(|words|, i requires 0 <= i < |words| => ToLowerCase(words[i]));
    if |words| > 1 {
      LowerCaseOfJoin(words[1..], separator);
      assert lower[1..] == seq(|words[1..]|, i requires 0 <= i < |words[1..]| => ToLowerCase(words[1..][i]));
      assert ToLowerCase(words[0] + separator + Join(words[1..], separator)) ==
             ToLowerCase(words[0]) + ToLowerCase(separator) + ToLowerCase(Join(words[1..], separator));
    }
  }

  lemma {:induction false} WithoutInJoin(words: seq<string>, separator: string, chars: string)
    requires Without(separator, chars) == separator
    ensures Without(Join(words, separator), chars) == Join(seq(|words|, i requires 0 <= i < |words| => Without(words[i], chars)), separator)
  {
    var left := seq(|words|, i requires 0 <= i < |words| => Without(words[i], chars));
    if |words| > 1 {
      WithoutInJoin(words[1..], separator, chars);
      assert left[1..] == seq(|words[1..]|, i requires 0 <= i < |words[1..]| => Without(words[1..][i], chars));
      WithoutAppend(words[0] + separator, Join(words[1..], separator), chars);
      WithoutAppend(words[0], separator, chars);
    }
  }

  function NormalWords(words: seq<string>): seq<string> {
    seq(|words|, i requires 0 <= i < |words| => Without(ToLowerCase(words[i]), ".,()"))
  }

  /** The words are normalized one by one and the separators between them stay. */
  lemma SequenceByWords(words: seq<string>, stripWhitespace: bool)
    ensures Sequence(words, stripWhitespace) == Join(NormalWords(words), if stripWhitespace then "" else " ")
  {
    var separator := if stripWhitespace then "" else " ";
    var lower := seq(|words|, i requires 0 <= i < |words| => ToLowerCase(words[i]));
    LowerCaseOfJoin(words, separator);
    WithoutKeepsOthers(separator, ".,()");
    WithoutInJoin(lower, separator, ".,()");
    assert NormalWords(words) == seq(|lower|, i requires 0 <= i < |lower| => Without(lower[i], ".,()"));
  }

  lemma JoinLonger(c: char, parts: seq<string>, separator: string)
    requires parts != []
    ensures Join([[c] + parts[0]] + parts[1..], separator) == [c] + Join(parts, separator)
  {
    var longer := [[c] + parts[0]] + parts[1..];
    assert longer[1..] == parts[1..];
    if |parts| > 1 {
      assert Join(longer, separator) == ([c] + parts[0]) + separator + Join(parts[1..], separator);
    }
  }

  lemma JoinAfterEmpty(parts: seq<string>, separator: string)
    requires parts != []
    ensures Join([""] + parts, separator) == separator + Join(parts, separator)
  {
    assert ([""] + parts)[1..] == parts;
    assert "" + separator == separator;
  }

  /** The parts are what the separators divide: joined with them they are the string, and none contains one. */
  lemma {:induction false} SplitIsExact(s: string, separator: char)
    ensures Join(Split(s, separator), [separator]) == s
    ensures forall i :: 0 <= i < |Split(s, separator)| ==> separator !in Split(s, separator)[i]
  {
    if s != "" {
      var rest := Split(s[1..], separator);
      SplitIsExact(s[1..], separator);
      assert s == [s[0]] + s[1..];
      JoinLonger(s[0], rest, [separator]);
      JoinAfterEmpty(rest, [separator]);
    }
  }

  // ---------------------------------------------------------------- joining adjacent parts

  function WithFirst(first: string, splits: seq<seq<string>>): seq<seq<string>> {
    if splits == [] then []
    else
      var rest := splits[0];
      (if rest == [] then [[first]] else [[first] + rest, [first + rest[0]] + rest[1..]]) + WithFirst(first, splits[1..])
  }

  function GeneratePossiblePartSplits(parts: seq<string>): seq<seq<string>> {
    if |parts| <= 1 then [parts] else WithFirst(parts[0], GeneratePossiblePartSplits(parts[1..]))
  }

  function Flatten(groups: seq<seq<string>>): seq<string> {
    if groups == [] then [] else groups[0] + Flatten(groups[1..])
  }

  /** The parts in order, in groups of at least one, each group joined. */
  ghost predicate JoinsGroups(parts: seq<string>, groups: seq<seq<string>>, split: seq<string>) {
    && Flatten(groups) == parts && |split| == |groups|
    && forall i :: 0 <= i < |groups| ==> groups[i] != [] && split[i] == Concat(groups[i])
  }

  ghost predicate IsCut(parts: seq<string>, split: seq<string>) {
    exists groups :: JoinsGroups(parts, groups, split)
  }

  lemma {:induction false} WithFirstHas(first: string, splits: seq<seq<string>>, split: seq<string>)
    ensures split in WithFirst(first, splits) <==>
            exists rest :: rest in splits &&
              if rest == [] then split == [first] else split == [first] + rest || split == [first + rest[0]] + rest[1..]
  {
    if splits != [] {
      WithFirstHas(first, splits[1..], split);
      assert splits == [splits[0]] + splits[1..];
    }
  }

  lemma ExtendCut(first: string, parts: seq<string>, groups: seq<seq<string>>, rest: seq<string>)
    requires JoinsGroups(parts, groups, rest) && rest != []
    ensures IsCut([first] + parts, [first] + rest) && IsCut([first] + parts, [first + rest[0]] + rest[1..])
  {
    var apart := [[first]] + groups;
    assert Concat([first]) == first + Concat([first][1..]) == first;
    assert apart[1..] == groups;
    assert JoinsGroups([first] + parts, apart, [first] + rest);
    var merged := [[first] + groups[0]] + groups[1..];
    assert merged[1..] == groups[1..] && ([first] + groups[0])[1..] == groups[0];
    assert Flatten(merged) == [first] + groups[0] + Flatten(groups[1..]) == [first] + parts;
    assert JoinsGroups([first] + parts, merged, [first + rest[0]] + rest[1..]);
  }

  lemma {:induction false} SplitsAreCuts(parts: seq<string>, split: seq<string>)
    requires split in GeneratePossiblePartSplits(parts)
    ensures IsCut(parts, split) && (parts != [] ==> split != [])
  {
    if |parts| <= 1 {
      assert split == parts;
      if parts == [] {
        assert JoinsGroups(parts, [], split);
      } else {
        assert Concat(parts) == parts[0] + Concat(parts[1..]) == parts[0];
        assert [parts][1..] == [];
        assert JoinsGroups(parts, [parts], split);
      }
    } else {
      WithFirstHas(parts[0], GeneratePossiblePartSplits(parts[1..]), split);
      var rest :| rest in GeneratePossiblePartSplits(parts[1..]) &&
        if rest == [] then split == [parts[0]] else split == [parts[0]] + rest || split == [parts[0] + rest[0]] + rest[1..];
      SplitsAreCuts(parts[1..], rest);
      var groups :| JoinsGroups(parts[1..], groups, rest);
      ExtendCut(parts[0], parts[1..], groups, rest);
      assert [parts[0]] + parts[1..] == parts;
    }
  }

  lemma {:induction false} FlattenGrows(groups: seq<seq<string>>)
    requires forall i :: 0 <= i < |groups| ==> groups[i] != []
    ensures |Flatten(groups)| >= |groups|
  {
    if groups != [] {
      FlattenGrows(groups[1..]);
    }
  }

  lemma Chosen(parts: seq<string>, split: seq<string>, rest: seq<string>)
    requires |parts| > 1 && rest != [] && rest in GeneratePossiblePartSplits(parts[1..])
    requires split == [parts[0]] + rest || split == [parts[0] + rest[0]] + rest[1..]
    ensures split in GeneratePossiblePartSplits(parts)
  {
    WithFirstHas(parts[0], GeneratePossiblePartSplits(parts[1..]), split);
  }

  lemma OneGroup(parts: seq<string>, groups: seq<seq<string>>, split: seq<string>)
    requires |parts| == 1 && JoinsGroups(parts, groups, split)
    ensures split == parts
  {
    assert groups != [];
    var g := groups[0];
    assert parts == g + Flatten(groups[1..]);
    FlattenGrows(groups[1..]);
    assert g[1..] == [] && g[0] + "" == g[0] && Concat(g) == g[0] + Concat(g[1..]);
  }

  /** The first group without the first part, or no group at all if it has no other part. */
  lemma ShorterCut(parts: seq<string>, groups: seq<seq<string>>, split: seq<string>) returns (rest: seq<seq<string>>, smaller: seq<string>)
    requires |parts| > 1 && JoinsGroups(parts, groups, split)
    ensures JoinsGroups(parts[1..], rest, smaller) && smaller != []
    ensures split == [parts[0]] + smaller || split == [parts[0] + smaller[0]] + smaller[1..]
  {
    assert groups != [];
    var g := groups[0];
    assert parts == g + Flatten(groups[1..]) && Concat(g) == g[0] + Concat(g[1..]);
    if |g| == 1 {
      rest, smaller := groups[1..], split[1..];
      assert g[1..] == [] && g[0] + "" == g[0];
      assert Flatten(rest) == parts[1..];
      assert split == [split[0]] + smaller;
    } else {
      rest, smaller := [g[1..]] + groups[1..], [Concat(g[1..])] + split[1..];
      assert rest[1..] == groups[1..] && smaller[1..] == split[1..];
      assert Flatten(rest) == g[1..] + Flatten(groups[1..]) == parts[1..];
      assert split == [split[0]] + smaller[1..];
    }
  }

  lemma {:induction false} CutsAreSplits(parts: seq<string>, groups: seq<seq<string>>, split: seq<string>)
    requires parts != [] && JoinsGroups(parts, groups, split)
    ensures split in GeneratePossiblePartSplits(parts)
    decreases |parts|
  {
    if |parts| == 1 {
      OneGroup(parts, groups, split);
      assert GeneratePossiblePartSplits(parts)[0] == split;
    } else {
      var rest, smaller := ShorterCut(parts, groups, split);
      CutsAreSplits(parts[1..], rest, smaller);
      Chosen(parts, split, smaller);
    }
  }

  /** The generator lists exactly the ways of joining adjacent parts. */
  lemma SplitsAreExactlyCuts(parts: seq<string>, split: seq<string>)
    requires parts != []
    ensures split in GeneratePossiblePartSplits(parts) <==> IsCut(parts, split)
  {
    if split in GeneratePossiblePartSplits(parts) {
      SplitsAreCuts(parts, split);
    }
    if IsCut(parts, split) {
      var groups :| JoinsGroups(parts, groups, split);
      CutsAreSplits(parts, groups, split);
    }
  }

  // ---------------------------------------------------------------- matching

  function DotParts(word: string): seq<string> {
    Split(Without(word, ",()"), '.')
  }

  predicate AllIn(parts: seq<string>, forms: set<string>) {
    forall i :: 0 <= i < |parts| ==> parts[i] in forms
  }

  function DashWords(parts: seq<string>): seq<string> {
    Split(ToLowerCase(Join(parts, "")), '-')
  }

  predicate WordMatches(word: string, forms: set<string>) {
    exists i :: 0 <= i < |GeneratePossiblePartSplits(DotParts(word))| && AllIn(GeneratePossiblePartSplits(DotParts(word))[i], forms)
  }

  predicate MultiPartMatch(parts: seq<string>, forms: set<string>) {
    forall i :: 0 <= i < |DashWords(parts)| ==> WordMatches(DashWords(parts)[i], forms)
  }

  ghost predicate CanBeCut(word: string, forms: set<string>) {
    exists split :: IsCut(DotParts(word), split) && AllIn(split, forms)
  }

  /** A sequence of words matches exactly if each word between dashes can be cut at some of its dots into known forms. */
  lemma MultiPartMatchMeans(parts: seq<string>, forms: set<string>)
    ensures MultiPartMatch(parts, forms) <==> forall i :: 0 <= i < |DashWords(parts)| ==> CanBeCut(DashWords(parts)[i], forms)
  {
    forall i | 0 <= i < |DashWords(parts)| ensures WordMatches(DashWords(parts)[i], forms) <==> CanBeCut(DashWords(parts)[i], forms) {
      var word := DashWords(parts)[i];
      var splits := GeneratePossiblePartSplits(DotParts(word));
      if WordMatches(word, forms) {
        var k :| 0 <= k < |splits| && AllIn(splits[k], forms);
        SplitsAreExactlyCuts(DotParts(word), splits[k]);
      }
      if CanBeCut(word, forms) {
        var split :| IsCut(DotParts(word), split) && AllIn(split, forms);
        SplitsAreExactlyCuts(DotParts(word), split);
        assert split in splits;
      }
    }
  }

  // ---------------------------------------------------------------- stripping

  function Sequence(parts: seq<string>, stripWhitespace: bool): string {
    Without(ToLowerCase(Join(parts, if stripWhitespace then "" else " ")), ".,()")
  }

  predicate IsConnector(word: string) {
    word == "-" || word == "&"
  }

  predicate IsForm(parts: seq<string>, forms: set<string>, stripWhitespace: bool) {
    Sequence(parts, stripWhitespace) in forms || MultiPartMatch(parts, forms)
  }

  predicate EndsWith(s: string, suffix: string) {
    |s| >= |suffix| && s[|s| - |suffix|..] == suffix
  }

  /** After such a word, or a removed form in parentheses, there may be another form. */
  predicate Restarts(previous: string, removed: string) {
    EndsWith(previous, ".") || EndsWith(previous, ".,") || EndsWith(previous, ")") || EndsWith(previous, "),") ||
    IsConnector(previous) || "(" <= removed
  }

  /** By characters: the word before ends with a dot or a closing parenthesis, and perhaps a comma after that, or what went starts with an opening one. */
  lemma RestartsByCharacters(previous: string, removed: string)
    ensures Restarts(previous, removed) <==>
            || (previous != "" && previous[|previous| - 1] in ".)")
            || (|previous| >= 2 && previous[|previous| - 1] == ',' && previous[|previous| - 2] in ".)")
            || (|previous| == 1 && previous[0] in "-&")
            || (removed != "" && removed[0] == '(')
  {
    var n := |previous|;
    if n >= 1 {
      assert previous[n - 1..] == [previous[n - 1]];
    }
    if n >= 2 {
      assert previous[n - 2..] == [previous[n - 2], previous[n - 1]];
    }
    if removed != "" {
      assert removed == [removed[0]] + removed[1..];
    }
  }

  /** The words from here on can go: they are a form, or a connector at the end. */
  predicate Removable(words: seq<string>, index: nat, isForm: seq<string> -> bool)
    requires index < |words|
  {
    (IsConnector(words[index]) && index == |words| - 1) || isForm(words[index..])
  }

  /** After a connector, and after some forms, the search starts again. */
  predicate GoesOn(words: seq<string>, index: nat)
    requires 0 < index < |words|
  {
    (IsConnector(words[index]) && index == |words| - 1) || Restarts(words[index - 1], words[index])
  }

  /** Where the search from `index` on finds the first words that can go; the number of words if it finds none. */
  function NextCut(words: seq<string>, index: nat, isForm: seq<string> -> bool): (m: nat)
    requires index <= |words|
    ensures index <= m <= |words|
    decreases |words| - index
  {
    if index == |words| || Removable(words, index, isForm) then index
    else NextCut(words, index + 1, isForm)
  }

  /** What is left from a search at `index` on. */
  function StrippedFrom(words: seq<string>, index: nat, isForm: seq<string> -> bool): seq<string>
    requires 0 < index <= |words|
    decreases |words|
  {
    var m := NextCut(words, index, isForm);
    if m == |words| then words
    else if GoesOn(words, m) then StrippedFrom(words[..m], 1, isForm)
    else words[..m]
  }

  // ---------------------------------------------------------------- the rounds of the suffix

  /** The longest words from the second one on that can go start at `m`. */
  ghost predicate LongestRemovable(words: seq<string>, m: nat, isForm: seq<string> -> bool) {
    && 0 < m < |words| && Removable(words, m, isForm)
    && forall n :: 0 < n < m ==> !Removable(words, n, isForm)
  }

  ghost predicate NothingRemovable(words: seq<string>, isForm: seq<string> -> bool) {
    forall n :: 0 < n < |words| ==> !Removable(words, n, isForm)
  }

  /**
    Each round cuts the words before the longest form that is left from the second word on, or before a
    connector at the end. It is the last one if it does not ask for another, or if nothing can go any more.
   */
  ghost predicate Rounds(words: seq<string>, cuts: seq<nat>, left: seq<string>, isForm: seq<string> -> bool)
    decreases |cuts|
  {
    if cuts == [] then left == words && NothingRemovable(words, isForm)
    else
      && LongestRemovable(words, cuts[0], isForm)
      && if GoesOn(words, cuts[0]) then Rounds(words[..cuts[0]], cuts[1..], left, isForm)
         else cuts[1..] == [] && left == words[..cuts[0]]
  }

  lemma {:induction false} NextCutIsFirst(words: seq<string>, index: nat, isForm: seq<string> -> bool)
    requires index <= |words|
    ensures var m := NextCut(words, index, isForm);
            && (m < |words| ==> Removable(words, m, isForm))
            && forall n :: index <= n < m ==> !Removable(words, n, isForm)
    decreases |words| - index
  {
    if index < |words| && !Removable(words, index, isForm) {
      NextCutIsFirst(words, index + 1, isForm);
    }
  }

  /** The stripped words are what such rounds leave. */
  lemma {:induction false} StrippingIsRounds(words: seq<string>, isForm: seq<string> -> bool) returns (cuts: seq<nat>)
    requires words != []
    ensures Rounds(words, cuts, StrippedFrom(words, 1, isForm), isForm)
    decreases |words|
  {
    var m := NextCut(words, 1, isForm);
    NextCutIsFirst(words, 1, isForm);
    if m == |words| {
      cuts := [];
    } else if GoesOn(words, m) {
      var rest := StrippingIsRounds(words[..m], isForm);
      cuts := [m] + rest;
      assert cuts[1..] == rest;
    } else {
      cuts := [m];
    }
  }

  /** And such rounds leave nothing else. */
  lemma {:induction false} RoundsLeaveOneThing(words: seq<string>, cuts: seq<nat>, left: seq<string>, isForm: seq<string> -> bool)
    requires words != [] && Rounds(words, cuts, left, isForm)
    ensures left == StrippedFrom(words, 1, isForm)
    decreases |cuts|
  {
    var m := NextCut(words, 1, isForm);
    NextCutIsFirst(words, 1, isForm);
    if cuts != [] {
      assert !(m < cuts[0]) && !(cuts[0] < m);
      if GoesOn(words, cuts[0]) {
        RoundsLeaveOneThing(words[..m], cuts[1..], left, isForm);
      }
    }
  }

  /**
    What the rounds leave is a non-empty prefix of the words. No connector is its last word, and nothing more
    can go if the last word asks for another round, or if no word went.
   */
  lemma {:induction false} RoundsKeepSomething(words: seq<string>, cuts: seq<nat>, left: seq<string>, isForm: seq<string> -> bool)
    requires words != [] && Rounds(words, cuts, left, isForm)
    ensures left != [] && left <= words
    ensures |left| > 1 ==> !IsConnector(left[|left| - 1])
    ensures Restarts(left[|left| - 1], "") || left == words ==> NothingRemovable(left, isForm)
    decreases |cuts|
  {
    if cuts == [] {
      assert |words| > 1 ==> !Removable(words, |words| - 1, isForm);
    } else if GoesOn(words, cuts[0]) {
      RoundsKeepSomething(words[..cuts[0]], cuts[1..], left, isForm);
    }
  }

  function FormOf(forms: set<string>, stripWhitespace: bool): seq<string> -> bool {
    parts => IsForm(parts, forms, stripWhitespace)
  }

  /** Between dashes and between dots: joined again, the parts are the words without spaces, commas and parentheses. */
  lemma PartsAreCutAtDashesAndDots(parts: seq<string>, i: nat)
    requires i < |DashWords(parts)|
    ensures Join(DashWords(parts), "-") == ToLowerCase(Concat(parts)) && '-' !in DashWords(parts)[i]
    ensures var word := DashWords(parts)[i];
            Join(DotParts(word), ".") == Without(word, ",()") && forall k :: 0 <= k < |DotParts(word)| ==> '.' !in DotParts(word)[k]
  {
    JoinWithNothing(parts);
    SplitIsExact(ToLowerCase(Concat(parts)), '-');
    SplitIsExact(Without(DashWords(parts)[i], ",()"), '.');
  }

  /**
    Words are a form if the set has them as they are joined, each normalized, or if each part between dashes
    can be cut at some of its dots into members of the set.
   */
  lemma FormMeans(parts: seq<string>, forms: set<string>, stripWhitespace: bool)
    ensures FormOf(forms, stripWhitespace)(parts) <==>
            || Join(NormalWords(parts), if stripWhitespace then "" else " ") in forms
            || forall i :: 0 <= i < |DashWords(parts)| ==> CanBeCut(DashWords(parts)[i], forms)
    ensures InSet(forms, stripWhitespace)(parts) <==> Join(NormalWords(parts), if stripWhitespace then "" else " ") in forms
  {
    SequenceByWords(parts, stripWhitespace);
    MultiPartMatchMeans(parts, forms);
  }

  /** The search at `index` of these words goes on to what is left of the original ones. */
  ghost predicate Continues(original: seq<string>, words: seq<string>, index: nat, isForm: seq<string> -> bool)
    requires original != []
  {
    && 0 < index && words != []
    && StrippedFrom(original, 1, isForm) == if index <= |words| then StrippedFrom(words, index, isForm) else words
  }

  lemma Continue(original: seq<string>, words: seq<string>, index: nat, isForm: seq<string> -> bool)
    requires original != [] && Continues(original, words, index, isForm) && index < |words|
    ensures if !Removable(words, index, isForm) then Continues(original, words, index + 1, isForm)
            else if GoesOn(words, index) then Continues(original, words[..index], 1, isForm)
            else Continues(original, words[..index], index + 1, isForm)
  {
  }

  /** What the stripping leaves: the words before the last cut, not empty, without a connector at the end. */
  ghost predicate IsStripped(original: seq<string>, cuts: seq<nat>, words: seq<string>, isForm: seq<string> -> bool) {
    && Rounds(original, cuts, words, isForm)
    && words != [] && words <= original && (|words| > 1 ==> !IsConnector(words[|words| - 1]))
    && (Restarts(words[|words| - 1], "") || words == original ==> NothingRemovable(words, isForm))
  }

  ghost predicate IsLeftByRounds(original: seq<string>, words: seq<string>, isForm: seq<string> -> bool) {
    exists cuts :: IsStripped(original, cuts, words, isForm)
  }

  lemma StrippedFromIs(original: seq<string>, isForm: seq<string> -> bool)
    requires original != []
    ensures IsLeftByRounds(original, StrippedFrom(original, 1, isForm), isForm)
  {
    var cuts := StrippingIsRounds(original, isForm);
    RoundsKeepSomething(original, cuts, StrippedFrom(original, 1, isForm), isForm);
    assert IsStripped(original, cuts, StrippedFrom(original, 1, isForm), isForm);
  }

  /** However often the search restarts, the loop ends, and it leaves what the rounds leave. */
  method StripSuffixWithSet(original: seq<string>, forms: set<string>, stripWhitespace: bool) returns (words: seq<string>)
    requires original != []
    ensures IsLeftByRounds(original, words, FormOf(forms, stripWhitespace))
  {
    StrippedFromIs(original, FormOf(forms, stripWhitespace));
    words := original;
    var index := 1;
    while index < |words|
      invariant Continues(original, words, index, FormOf(forms, stripWhitespace))
      decreases |words|, |words| - index
    {
      Continue(original, words, index, FormOf(forms, stripWhitespace));
      if IsConnector(words[index]) && index == |words| - 1 {
        words := words[..index];
        index := 1;
        continue;
      }
      var parts := words[index..];
      if IsForm(parts, forms, stripWhitespace) {
        words := words[..index];
        if Restarts(words[index - 1], parts[0]) {
          index := 1;
          continue;
        }
      }
      index := index + 1;
    }
  }

  function InSet(forms: set<string>, stripWhitespace: bool): seq<string> -> bool {
    parts => Sequence(parts, stripWhitespace) in forms
  }

  /** The loop goes on with the shortened list, so a longer prefix is taken for all the words that are left. */
  function StrippedPrefix(words: seq<string>, i: nat, isForm: seq<string> -> bool): seq<string> {
    if i == 0 then words
    else
      var n := if i < |words| then i else |words|;
      StrippedPrefix(if isForm(words[..n]) then words[n..] else words, i - 1, isForm)
  }

  ghost predicate IsSuffix(words: seq<string>, original: seq<string>) {
    |words| <= |original| && words == original[|original| - |words|..]
  }

  /** The longest prefix of at most `reach` words that is a form has `n` words. */
  ghost predicate LongestForm(words: seq<string>, n: nat, reach: nat, isForm: seq<string> -> bool) {
    0 < n <= |words| && n <= reach && isForm(words[..n]) && forall k :: n < k <= |words| && k <= reach ==> !isForm(words[..k])
  }

  ghost predicate NoFormWithin(words: seq<string>, reach: nat, isForm: seq<string> -> bool) {
    forall k :: 0 < k <= |words| && k <= reach ==> !isForm(words[..k])
  }

  /**
    Forms of these lengths go one after the other, each the longest that the loop can still reach: after a
    form of `n` words, the loop reaches fewer than `n` words. What is left then starts with no form in reach.
   */
  ghost predicate PrefixRounds(words: seq<string>, lengths: seq<nat>, left: seq<string>, reach: nat, isForm: seq<string> -> bool)
    decreases |lengths|
  {
    if lengths == [] then left == words && NoFormWithin(words, reach, isForm)
    else LongestForm(words, lengths[0], reach, isForm) && PrefixRounds(words[lengths[0]..], lengths[1..], left, lengths[0] - 1, isForm)
  }

  /** All words go in such forms. */
  ghost predicate Cuts(words: seq<string>, lengths: seq<nat>, reach: nat, isForm: seq<string> -> bool) {
    PrefixRounds(words, lengths, [], reach, isForm)
  }

  lemma {:induction false} NothingLeft(i: nat, isForm: seq<string> -> bool)
    ensures StrippedPrefix([], i, isForm) == []
  {
    if i > 0 {
      NothingLeft(i - 1, isForm);
    }
  }

  /** One more word in reach that is no form, or more reach than words, changes nothing. */
  lemma ReachMore(words: seq<string>, lengths: seq<nat>, left: seq<string>, reach: nat, isForm: seq<string> -> bool)
    requires reach < |words| ==> !isForm(words[..reach + 1])
    ensures PrefixRounds(words, lengths, left, reach, isForm) <==> PrefixRounds(words, lengths, left, reach + 1, isForm)
  {
  }

  lemma {:induction false} PrefixStrippingIsRounds(words: seq<string>, i: nat, isForm: seq<string> -> bool) returns (lengths: seq<nat>)
    ensures PrefixRounds(words, lengths, StrippedPrefix(words, i, isForm), i, isForm)
    decreases i
  {
    var n := if i < |words| then i else |words|;
    if i == 0 {
      lengths := [];
    } else if words == [] {
      NothingLeft(i, isForm);
      lengths := [];
    } else if isForm(words[..n]) {
      if n < i {
        NothingLeft(i - 1, isForm);
      }
      var rest := PrefixStrippingIsRounds(words[n..], n - 1, isForm);
      lengths := [n] + rest;
      assert lengths[1..] == rest;
      NothingLeft(n - 1, isForm);
    } else {
      lengths := PrefixStrippingIsRounds(words, i - 1, isForm);
      ReachMore(words, lengths, StrippedPrefix(words, i, isForm), i - 1, isForm);
    }
  }

  /** And such rounds leave nothing else. */
  lemma {:induction false} PrefixRoundsLeaveOneThing(words: seq<string>, lengths: seq<nat>, left: seq<string>, i: nat, isForm: seq<string> -> bool)
    requires PrefixRounds(words, lengths, left, i, isForm)
    ensures left == StrippedPrefix(words, i, isForm)
    decreases i
  {
    var n := if i < |words| then i else |words|;
    if words == [] {
      NothingLeft(i, isForm);
    } else if i > 0 {
      if !isForm(words[..n]) {
        ReachMore(words, lengths, left, i - 1, isForm);
        PrefixRoundsLeaveOneThing(words, lengths, left, i - 1, isForm);
      } else {
        assert lengths != [] && lengths[0] == n;
        if n == i {
          PrefixRoundsLeaveOneThing(words[n..], lengths[1..], left, i - 1, isForm);
        } else {
          PrefixRoundsLeaveOneThing(words[n..], lengths[1..], left, n - 1, isForm);
          NothingLeft(n - 1, isForm);
          NothingLeft(i - 1, isForm);
        }
      }
    }
  }

  ghost predicate IsLeftByPrefixRounds(words: seq<string>, left: seq<string>, reach: nat, isForm: seq<string> -> bool) {
    exists lengths :: PrefixRounds(words, lengths, left, reach, isForm)
  }

  /** The loop starts below the number of words, and not at all without words, as after an earlier call that took all. */
  method StripPrefixWithSet(original: seq<string>, forms: set<string>, stripWhitespace: bool) returns (words: seq<string>)
    ensures IsLeftByPrefixRounds(original, words, Max(|original| - 1, 0), InSet(forms, stripWhitespace))
  {
    words := original;
    var i := |original| - 1;
    while i > 0
      invariant StrippedPrefix(original, Max(|original| - 1, 0), InSet(forms, stripWhitespace)) ==
                StrippedPrefix(words, Max(i, 0), InSet(forms, stripWhitespace))
    {
      var n := if i < |words| then i else |words|;
      if Sequence(words[..n], stripWhitespace) in forms {
        words := words[n..];
      }
      i := i - 1;
    }
    ghost var lengths := PrefixStrippingIsRounds(original, Max(|original| - 1, 0), InSet(forms, stripWhitespace));
  }

  lemma {:induction false} SuffixIsLeft(original: seq<string>, words: seq<string>, i: nat, isForm: seq<string> -> bool)
    requires IsSuffix(words, original)
    ensures IsSuffix(StrippedPrefix(words, i, isForm), original)
    decreases i
  {
    if i > 0 {
      var n := if i < |words| then i else |words|;
      var next := if isForm(words[..n]) then words[n..] else words;
      assert next == original[|original| - |next|..];
      SuffixIsLeft(original, next, i - 1, isForm);
    }
  }

  ghost predicate CanBeTaken(words: seq<string>, reach: nat, isForm: seq<string> -> bool) {
    exists lengths :: Cuts(words, lengths, reach, isForm)
  }

  lemma TakenExactlyIfCut(words: seq<string>, i: nat, isForm: seq<string> -> bool)
    ensures StrippedPrefix(words, i, isForm) == [] <==> CanBeTaken(words, i, isForm)
  {
    var taken := PrefixStrippingIsRounds(words, i, isForm);
    if StrippedPrefix(words, i, isForm) == [] {
      assert Cuts(words, taken, i, isForm);
    }
    if CanBeTaken(words, i, isForm) {
      var lengths :| Cuts(words, lengths, i, isForm);
      PrefixRoundsLeaveOneThing(words, lengths, [], i, isForm);
    }
  }

  /** A suffix of the words is left, and nothing exactly if the words are such a sequence of forms. */
  lemma PrefixStrippingKeepsSomething(words: seq<string>, i: nat, isForm: seq<string> -> bool)
    ensures IsSuffix(StrippedPrefix(words, i, isForm), words)
    ensures StrippedPrefix(words, i, isForm) == [] <==> CanBeTaken(words, i, isForm)
  {
    SuffixIsLeft(words, words, i, isForm);
    TakenExactlyIfCut(words, i, isForm);
  }

  /** So something is left unless some of the last words are a form by themselves. */
  lemma {:induction false} CutsEndWithAForm(words: seq<string>, lengths: seq<nat>, reach: nat, isForm: seq<string> -> bool)
    requires words != [] && Cuts(words, lengths, reach, isForm)
    ensures exists k :: 0 <= k < |words| && |words| - k <= reach && isForm(words[k..])
    decreases |lengths|
  {
    var n := lengths[0];
    if n == |words| {
      assert words[0..] == words && words[..n] == words;
    } else {
      var rest := words[n..];
      CutsEndWithAForm(rest, lengths[1..], n - 1, isForm);
      var k :| 0 <= k < |rest| && |rest| - k <= n - 1 && isForm(rest[k..]);
      assert words[n + k..] == rest[k..];
    }
  }

  /** Three words of which the first two and the last one are forms are stripped to nothing. */
  lemma PrefixStrippingCanTakeAll(a: string, b: string, c: string, isForm: seq<string> -> bool)
    requires isForm([a, b]) && isForm([c])
    ensures StrippedPrefix([a, b, c], 2, isForm) == []
  {
    var words := [a, b, c];
    assert words[..2] == [a, b] && words[2..] == [c] && [c][..1] == [c] && [c][1..] == [];
    assert Cuts([], [], 0, isForm);
    assert Cuts([c], [1], 1, isForm);
    assert Cuts(words, [2, 1], 2, isForm) by {
      assert [2, 1][1..] == [1];
    }
    PrefixRoundsLeaveOneThing(words, [2, 1], [], 2, isForm);
  }
}
