/** Roster input handling of the web front end (frontend/app.js): the parsing
    of a pasted list of soldier names (addMultipleSoldiers) and the building
    of a soldier's constraints from the checked boxes of the constraints form
    (saveConstraints), taken out of their DOM and network code. */
module RosterInput {
  import opened Domain

  // ---------------------------------------------------------------------------
  // Strings as JavaScript's trim, split and /\s+/ see them.

  /** JavaScript white space and line terminators (what `trim` removes and
      `\s` matches). */
  predicate IsWs(c: char) {
    c == '\t' || c == '\n' || c == '\U{000B}' || c == '\U{000C}' || c == '\r' || c == ' ' ||
    c == '\U{00A0}' || c == '\U{1680}' || ('\U{2000}' <= c <= '\U{200A}') ||
    c == '\U{2028}' || c == '\U{2029}' || c == '\U{202F}' || c == '\U{205F}' ||
    c == '\U{3000}' || c == '\U{FEFF}'
  }

  /** Empty, or neither starting nor ending with white space. */
  predicate Trimmed(s: string) {
    s == [] || (!IsWs(s[0]) && !IsWs(s[|s| - 1]))
  }

  function TrimStart(s: string): (r: string)
    ensures r == [] || !IsWs(r[0])
    ensures |r| <= |s| && r == s[|s| - |r|..]
    ensures forall i | 0 <= i < |s| - |r| :: IsWs(s[i])
  {
    if s != [] && IsWs(s[0]) then TrimStart(s[1..]) else s
  }

  function TrimEnd(s: string): (r: string)
    ensures r == [] || !IsWs(r[|r| - 1])
    ensures r <= s
    ensures forall i | |r| <= i < |s| :: IsWs(s[i])
  {
    if s != [] && IsWs(s[|s| - 1]) then TrimEnd(s[..|s| - 1]) else s
  }

  /** `String.prototype.trim`. */
  function Trim(s: string): (r: string)
    ensures Trimmed(r)
  {
    TrimEnd(TrimStart(s))
  }

  /** Trimming a trimmed string changes nothing, so trimming is idempotent. */
  lemma TrimmedIsFixed(s: string)
    requires Trimmed(s)
    ensures Trim(s) == s
  {
  }

  /** `s.split(sep)` for a one-character separator: the pieces between the
      separators, empty ones included. */
  function Split(s: string, sep: char): (parts: seq<string>)
    ensures |parts| >= 1
    ensures forall p | p in parts :: sep !in p
  {
    if s == [] then [[]]
    else
      var front := Split(s[..|s| - 1], sep);
      var c := s[|s| - 1];
      if c == sep then front + [[]]
      else front[..|front| - 1] + [front[|front| - 1] + [c]]
  }

  /** `parts.join(sep)`. */
  function Join(parts: seq<string>, sep: char): string
    requires |parts| >= 1
  {
    if |parts| == 1 then parts[0] else Join(parts[..|parts| - 1], sep) + [sep] + parts[|parts| - 1]
  }

  /** Splitting loses nothing: joining the pieces with the separator gives the input back. */
  lemma {:induction false} SplitJoin(s: string, sep: char)
    ensures Join(Split(s, sep), sep) == s
  {
    if s != [] {
      var init, c := s[..|s| - 1], s[|s| - 1];
      var front := Split(init, sep);
      SplitJoin(init, sep);
      assert s == init + [c];
      if c == sep {
        JoinNewPiece(front, sep);
      } else {
        JoinExtendLast(front, c, sep);
      }
    }
  }

  /** Starting a new, empty piece adds one separator to the join. */
  lemma JoinNewPiece(parts: seq<string>, sep: char)
    requires |parts| >= 1
    ensures Join(parts + [[]], sep) == Join(parts, sep) + [sep]
  {
    assert (parts + [[]])[..|parts|] == parts;
  }

  /** Extending the last piece extends the join. */
  lemma JoinExtendLast(parts: seq<string>, c: char, sep: char)
    requires |parts| >= 1
    ensures Join(parts[..|parts| - 1] + [parts[|parts| - 1] + [c]], sep) == Join(parts, sep) + [c]
  {
    var k := |parts| - 1;
    var longer := parts[..k] + [parts[k] + [c]];
    if k > 0 {
      assert longer[..k] == parts[..k];
    }
  }

  /** `.map(n => n.trim()).filter(n => n)`. */
  function Clean(parts: seq<string>): (r: seq<string>)
    ensures forall n | n in r :: n != [] && Trimmed(n)
    ensures |r| <= |parts|
  {
    if parts == [] then []
    else
      var t := Trim(parts[0]);
      (if t == [] then [] else [t]) + Clean(parts[1..])
  }

  /** The trimmed pieces, one per piece. */
  function Trims(parts: seq<string>): (ts: seq<string>)
    ensures |ts| == |parts|
  {
    if parts == [] then [] else [Trim(parts[0])] + Trims(parts[1..])
  }

  /** The names kept are the trimmed pieces in piece order, none of them
      empty. */
  lemma {:induction false} CleanInOrder(parts: seq<string>)
    ensures Subsequence(Clean(parts), Trims(parts))
    ensures [] !in Clean(parts)
  {
    if parts != [] {
      var t, rest, ts := Trim(parts[0]), Clean(parts[1..]), Trims(parts[1..]);
      CleanInOrder(parts[1..]);
      assert Trims(parts) == [t] + ts;
      SubsequenceCons(t, rest, ts);
      if t == [] {
        assert Clean(parts) == rest;
      } else {
        assert Clean(parts) == [t] + rest;
      }
    }
  }

  /** Every non-empty trimmed piece is kept, as often as it occurs. */
  lemma {:induction false} CleanKeepsAll(parts: seq<string>)
    ensures forall t | t != [] :: multiset(Clean(parts))[t] == multiset(Trims(parts))[t]
  {
    if parts != [] {
      var t, rest, ts := Trim(parts[0]), Clean(parts[1..]), Trims(parts[1..]);
      CleanKeepsAll(parts[1..]);
      assert Trims(parts) == [t] + ts;
      assert Clean(parts) == (if t == [] then [] else [t]) + rest;
    }
  }

  /** A string trims to nothing exactly when it is all white space. */
  lemma TrimEmptyIsAllWs(p: string)
    ensures Trim(p) == [] <==> forall i | 0 <= i < |p| :: IsWs(p[i])
  {
    var t := TrimStart(p);
    if Trim(p) == [] {
      assert t == [];
    }
    if forall i | 0 <= i < |p| :: IsWs(p[i]) {
      TrimStartOfBlank(p);
    }
  }

  lemma {:induction false} TrimStartOfBlank(p: string)
    requires forall i | 0 <= i < |p| :: IsWs(p[i])
    ensures TrimStart(p) == []
  {
    if p != [] {
      assert forall i | 0 <= i < |p| - 1 :: p[1..][i] == p[i + 1];
      TrimStartOfBlank(p[1..]);
    }
  }

  lemma {:induction false} CleanEmpty(parts: seq<string>)
    requires Clean(parts) == []
    ensures forall j | 0 <= j < |parts| :: Trim(parts[j]) == []
  {
    if parts != [] {
      CleanEmpty(parts[1..]);
      forall j | 1 <= j < |parts| ensures Trim(parts[j]) == [] {
        assert parts[j] == parts[1..][j - 1];
      }
    }
  }

  /** The first character of a join is a separator or the first character of
      some piece. */
  lemma {:induction false} JoinFirst(parts: seq<string>, sep: char)
    requires |parts| >= 1 && Join(parts, sep) != []
    ensures var s := Join(parts, sep);
            s[0] == sep || exists j | 0 <= j < |parts| :: parts[j] != [] && parts[j][0] == s[0]
  {
    if |parts| > 1 {
      var front := parts[..|parts| - 1];
      if Join(front, sep) != [] {
        JoinFirst(front, sep);
        assert Join(parts, sep)[0] == Join(front, sep)[0];
        assert forall j | 0 <= j < |front| :: front[j] == parts[j];
      }
    }
  }

  /** Nothing but the separator and white space. */
  predicate SepOrWs(s: string, sep: char) {
    forall i | 0 <= i < |s| :: s[i] == sep || IsWs(s[i])
  }

  /** Pieces of white space joined by a separator hold nothing but the
      separator and white space. */
  lemma {:induction false} JoinAllWs(parts: seq<string>, sep: char)
    requires |parts| >= 1
    requires forall j, i | 0 <= j < |parts| && 0 <= i < |parts[j]| :: IsWs(parts[j][i])
    ensures SepOrWs(Join(parts, sep), sep)
  {
    if |parts| > 1 {
      var front, last := parts[..|parts| - 1], parts[|parts| - 1];
      assert forall j | 0 <= j < |front| :: front[j] == parts[j];
      JoinAllWs(front, sep);
      var a, s := Join(front, sep), Join(parts, sep);
      assert s == a + [sep] + last;
      forall i | 0 <= i < |s| ensures s[i] == sep || IsWs(s[i]) {
        if i < |a| {
          assert s[i] == a[i];
        } else if |a| < i {
          assert s[i] == last[i - |a| - 1];
        }
      }
    } else {
      assert Join(parts, sep) == parts[0];
    }
  }

  /** An input that trims to something always yields a name, except when it
      has a comma but no newline and holds nothing but commas and white
      space: the "no valid names" error arises only there. */
  lemma NoNamesOnlyFromCommas(input: string)
    requires input != [] && Trimmed(input)
    ensures NamesOf(input) == [] ==> ',' in input && '\n' !in input
    ensures NamesOf(input) == [] ==> SepOrWs(input, ',')
  {
    if '\n' in input {
      var parts := Split(input, '\n');
      if Clean(parts) == [] {
        SplitJoin(input, '\n');
        CleanEmpty(parts);
        JoinFirst(parts, '\n');
        if j :| 0 <= j < |parts| && parts[j] != [] && parts[j][0] == input[0] {
          TrimEmptyIsAllWs(parts[j]);
        }
        assert false;
      }
    } else if ',' in input {
      var parts := Split(input, ',');
      if Clean(parts) == [] {
        SplitJoin(input, ',');
        CleanEmpty(parts);
        forall j | 0 <= j < |parts| ensures forall i | 0 <= i < |parts[j]| :: IsWs(parts[j][i]) {
          TrimEmptyIsAllWs(parts[j]);
        }
        JoinAllWs(parts, ',');
      }
    } else {
      var n := WordLength(input);
      assert Words(input) == [input[..n]] + Words(input[n..]);
    }
  }

  /** Length of the run of non-space characters at the front. */
  function WordLength(s: string): (n: nat)
    ensures n <= |s|
    ensures forall i | 0 <= i < n :: !IsWs(s[i])
    ensures n < |s| ==> IsWs(s[n])
  {
    if s == [] || IsWs(s[0]) then 0 else 1 + WordLength(s[1..])
  }

  /** `s.split(/\s+/).filter(w => w)`: the maximal runs of non-space characters. */
  function Words(s: string): (ws: seq<string>)
    ensures forall w | w in ws :: w != [] && forall i | 0 <= i < |w| :: !IsWs(w[i])
    decreases |s|
  {
    if s == [] then []
    else if IsWs(s[0]) then Words(s[1..])
    else
      var n := WordLength(s);
      [s[..n]] + Words(s[n..])
  }

  /** The characters of `s` that are not white space, in order. */
  function NonWs(s: string): string {
    if s == [] then [] else (if IsWs(s[0]) then [] else [s[0]]) + NonWs(s[1..])
  }

  /** The words written one after the other. */
  function Concat(ws: seq<string>): string {
    if ws == [] then [] else ws[0] + Concat(ws[1..])
  }

  /** The words hold every non-space character of the text, in order, and
      nothing else. */
  lemma {:induction false} WordsCoverText(s: string)
    ensures Concat(Words(s)) == NonWs(s)
    decreases |s|
  {
    if s != [] {
      if IsWs(s[0]) {
        WordsCoverText(s[1..]);
      } else {
        var n := WordLength(s);
        var w, rest := s[..n], s[n..];
        WordsCoverText(rest);
        assert s == w + rest;
        NonWsAppend(w, rest);
        NonWsOfWord(w);
        assert Concat([w] + Words(rest)) == w + Concat(Words(rest)) by {
          assert ([w] + Words(rest))[1..] == Words(rest);
        }
      }
    }
  }

  lemma {:induction false} NonWsAppend(a: string, b: string)
    ensures NonWs(a + b) == NonWs(a) + NonWs(b)
    decreases |a|
  {
    if a != [] {
      assert (a + b)[1..] == a[1..] + b;
      NonWsAppend(a[1..], b);
    } else {
      assert a + b == b;
    }
  }

  lemma {:induction false} NonWsOfWord(w: string)
    requires forall i | 0 <= i < |w| :: !IsWs(w[i])
    ensures NonWs(w) == w
    decreases |w|
  {
    if w != [] {
      NonWsOfWord(w[1..]);
    }
  }

  predicate IsWord(w: string) {
    w != [] && forall i | 0 <= i < |w| :: !IsWs(w[i])
  }

  lemma {:induction false} WordLengthOfWord(w: string, rest: string)
    requires IsWord(w) && (rest == [] || IsWs(rest[0]))
    ensures WordLength(w + rest) == |w|
    decreases |w|
  {
    var s := w + rest;
    assert s[0] == w[0];
    if |w| == 1 {
      assert s[1..] == rest;
      assert WordLength(rest) == 0;
    } else {
      assert s[1..] == w[1..] + rest;
      WordLengthOfWord(w[1..], rest);
    }
  }

  /** A word in front of a space (or of nothing) comes off whole. */
  lemma WordsOfFront(w: string, rest: string)
    requires IsWord(w) && (rest == [] || IsWs(rest[0]))
    ensures Words(w + rest) == [w] + Words(rest)
  {
    WordLengthOfWord(w, rest);
    var s := w + rest;
    assert s[..|w|] == w;
    assert s[|w|..] == rest;
  }

  /** A single word splits to itself. */
  lemma WordsOfSingle(a: string)
    requires IsWord(a)
    ensures Words(a) == [a]
  {
    WordsOfFront(a, []);
    assert a + [] == a;
  }

  /** Two words joined by a space split apart again. */
  lemma WordsOfPair(a: string, b: string)
    requires IsWord(a) && IsWord(b)
    ensures Words(a + " " + b) == [a, b]
  {
    var tail := " " + b;
    assert a + " " + b == a + tail;
    WordsOfFront(a, tail);
    assert tail[1..] == b;
    WordsOfSingle(b);
  }

  // ---------------------------------------------------------------------------
  // Name parsing (addMultipleSoldiers).

  /** The two-words-per-name heuristic: words paired in order, joined by one
      space, an odd last word on its own. */
  function Paired(words: seq<string>): (names: seq<string>)
    decreases |words|
  {
    if |words| == 0 then []
    else if |words| == 1 then [words[0]]
    else [words[0] + " " + words[1]] + Paired(words[2..])
  }

  /** The pairing yields one name per two words, rounding up. */
  lemma {:induction false} PairedCount(words: seq<string>)
    ensures |Paired(words)| == (|words| + 1) / 2
    decreases |words|
  {
    if |words| >= 2 {
      PairedCount(words[2..]);
    }
  }

  /** The words of each name, one name after the other. */
  function WordsOfAll(names: seq<string>): seq<string> {
    if names == [] then [] else Words(names[0]) + WordsOfAll(names[1..])
  }

  /** Splitting the paired names into words again gives back the words. */
  lemma {:induction false} PairedSplitsBack(words: seq<string>)
    requires forall i | 0 <= i < |words| :: IsWord(words[i])
    ensures WordsOfAll(Paired(words)) == words
    decreases |words|
  {
    if |words| == 1 {
      assert Paired(words) == [words[0]];
      WordsOfSingle(words[0]);
      WordsOfAllCons(words[0], []);
    } else if |words| >= 2 {
      var rest := words[2..];
      var n := words[0] + " " + words[1];
      assert Paired(words) == [n] + Paired(rest);
      forall i | 0 <= i < |rest| ensures IsWord(rest[i]) {
        assert rest[i] == words[i + 2];
      }
      calc {
        WordsOfAll(Paired(words));
        { WordsOfAllCons(n, Paired(rest)); }
        Words(n) + WordsOfAll(Paired(rest));
        { WordsOfPair(words[0], words[1]); PairedSplitsBack(rest); }
        [words[0], words[1]] + rest;
        words;
      }
    }
  }

  lemma WordsOfAllCons(n: string, rest: seq<string>)
    ensures WordsOfAll([n] + rest) == Words(n) + WordsOfAll(rest)
  {
    assert ([n] + rest)[1..] == rest;
  }

  /** Every paired name is trimmed and non-empty. */
  lemma {:induction false} PairedAreTrimmed(words: seq<string>)
    requires forall i | 0 <= i < |words| :: IsWord(words[i])
    ensures forall n | n in Paired(words) :: n != [] && Trimmed(n)
    decreases |words|
  {
    if |words| >= 2 {
      PairedAreTrimmed(words[2..]);
      var n := words[0] + " " + words[1];
      assert n[0] == words[0][0];
      assert n[|n| - 1] == words[1][|words[1]| - 1];
    }
  }

  /** Lines 471-478. */
  method PairWords(words: seq<string>) returns (names: seq<string>)
    ensures names == Paired(words)
  {
    names := [];
    var i := 0;
    while i < |words|
      invariant 0 <= i <= |words| + 1 && i % 2 == 0
      invariant names + Paired(words[if i < |words| then i else |words|..]) == Paired(words)
      decreases |words| - i
    {
      if i + 1 < |words| {
        assert Paired(words[i..]) == [words[i] + " " + words[i + 1]] + Paired(words[i + 2..]);
        names := names + [words[i] + " " + words[i + 1]];
      } else {
        assert Paired(words[i..]) == [words[i]];
        names := names + [words[i]];
      }
      i := i + 2;
    }
  }

  /** The names read from an input that is already trimmed: newline-separated
      if it has a newline, else comma-separated if it has a comma, else one
      name for a single word and paired words otherwise. */
  function NamesOf(input: string): seq<string> {
    if '\n' in input then Clean(Split(input, '\n'))
    else if ',' in input then Clean(Split(input, ','))
    else
      var words := Words(input);
      if |words| == 1 then [words[0]] else Paired(words)
  }

  /** Every name read is non-empty and trimmed. */
  lemma NamesAreTrimmed(input: string)
    ensures forall n | n in NamesOf(input) :: n != [] && Trimmed(n)
  {
    if '\n' !in input && ',' !in input {
      var words := Words(input);
      assert forall i | 0 <= i < |words| :: words[i] in words;
      if |words| != 1 {
        PairedAreTrimmed(words);
      } else {
        assert IsWord(words[0]);
      }
    }
  }

  datatype InputError = EmptyInput | NoValidNames

  /** Lines 443-480: parse the pasted list, rejecting an input that trims to
      nothing before any parsing, and one that yields no name. */
  method ParseNames(raw: string) returns (r: Result<seq<string>, InputError>)
    ensures Trim(raw) == [] <==> r == Failure(EmptyInput)
    ensures Trim(raw) != [] && NamesOf(Trim(raw)) == [] ==> r == Failure(NoValidNames)
    ensures Trim(raw) != [] && NamesOf(Trim(raw)) != [] ==> r == Success(NamesOf(Trim(raw)))
  {
    var input := Trim(raw);
    if input == [] {
      return Failure(EmptyInput);
    }
    var names: seq<string>;
    if '\n' in input {
      names := Clean(Split(input, '\n'));
    } else if ',' in input {
      names := Clean(Split(input, ','));
    } else {
      var words := Words(input);
      if |words| == 1 {
        names := [words[0]];
      } else {
        names := PairWords(words);
      }
    }
    if names == [] {
      return Failure(NoValidNames);
    }
    return Success(names);
  }

  // ---------------------------------------------------------------------------
  // Constraint collection (saveConstraints).

  /** A checked hour box: its day attribute, absent when undefined, and its
      value as parseInt reads it, absent when NaN. */
  datatype HourBox = HourBox(day: Option<string>, hour: Option<int>)

  /** Lines 783-785: the parsed day values that are numbers in 0..6, in order. */
  function KeepDays(values: seq<Option<int>>): (days: seq<int>)
    ensures forall d | d in days :: 0 <= d <= 6
    ensures forall d :: d in days <==> Some(d) in values && 0 <= d <= 6
  {
    if values == [] then []
    else
      var rest := KeepDays(values[1..]);
      if values[0].Some? && 0 <= values[0].value <= 6 then [values[0].value] + rest else rest
  }

  /** Days as the parsed values they came from. */
  function Parsed(days: seq<int>): (vs: seq<Option<int>>)
    ensures |vs| == |days|
  {
    if days == [] then [] else [Some(days[0])] + Parsed(days[1..])
  }

  /** The kept days are the values in 0..6, in their order. */
  lemma {:induction false} KeepDaysInOrder(values: seq<Option<int>>)
    ensures Subsequence(Parsed(KeepDays(values)), values)
  {
    if values != [] {
      var v, rest := values[0], KeepDays(values[1..]);
      KeepDaysInOrder(values[1..]);
      assert values == [v] + values[1..];
      SubsequenceCons(v, Parsed(rest), values[1..]);
      if v.Some? && 0 <= v.value <= 6 {
        assert KeepDays(values) == [v.value] + rest;
        assert Parsed([v.value] + rest) == [v] + Parsed(rest);
      } else {
        assert KeepDays(values) == rest;
      }
    }
  }

  /** Every value in 0..6 is kept, as often as it was checked. */
  lemma {:induction false} KeepDaysKeepsAll(values: seq<Option<int>>)
    ensures forall d | 0 <= d <= 6 :: multiset(KeepDays(values))[d] == multiset(values)[Some(d)]
  {
    if values != [] {
      var v, rest := values[0], KeepDays(values[1..]);
      KeepDaysKeepsAll(values[1..]);
      assert values == [v] + values[1..];
      if v.Some? && 0 <= v.value <= 6 {
        assert KeepDays(values) == [v.value] + rest;
      } else {
        assert KeepDays(values) == rest;
      }
    }
  }

  /** Line 792: the boxes that count. */
  predicate Counts(b: HourBox) {
    b.hour.Some? && 0 <= b.hour.value <= 23 && b.day.Some?
  }

  /** The hours of the counted boxes for one day, in box order. */
  function HoursFor(boxes: seq<HourBox>, day: string): (hours: seq<int>)
    ensures forall h | h in hours :: 0 <= h <= 23
  {
    if boxes == [] then []
    else HoursFor(boxes[..|boxes| - 1], day) + HourOfBox(boxes[|boxes| - 1], day)
  }

  /** A day collects no hour exactly when no counted box names it. */
  lemma {:induction false} HoursForEmpty(boxes: seq<HourBox>, day: string)
    ensures HoursFor(boxes, day) == [] <==> forall b | b in boxes :: !(Counts(b) && b.day.value == day)
  {
    if boxes != [] {
      var front := boxes[..|boxes| - 1];
      HoursForEmpty(front, day);
      assert forall x | x in boxes :: x in front || x == boxes[|boxes| - 1];
    }
  }

  /** The hour one box contributes to a day. */
  function HourOfBox(b: HourBox, day: string): seq<int> {
    if Counts(b) && b.day.value == day then [b.hour.value] else []
  }

  lemma HoursForStep(boxes: seq<HourBox>, k: int, day: string)
    requires 0 <= k < |boxes|
    ensures HoursFor(boxes[..k + 1], day) == HoursFor(boxes[..k], day) + HourOfBox(boxes[k], day)
  {
    assert boxes[..k + 1][..k] == boxes[..k];
  }

  /** Grouping is exact for the first `k` boxes. */
  ghost predicate GroupedUpTo(boxes: seq<HourBox>, k: int, byDay: map<string, seq<int>>)
    requires 0 <= k <= |boxes|
  {
    (forall d :: d in byDay <==> HoursFor(boxes[..k], d) != []) &&
    (forall d | d in byDay :: byDay[d] == HoursFor(boxes[..k], d))
  }

  /** Filing box `k` under its day keeps the grouping exact. */
  lemma CollectStep(boxes: seq<HourBox>, k: int, m0: map<string, seq<int>>, m1: map<string, seq<int>>)
    requires 0 <= k < |boxes| && GroupedUpTo(boxes, k, m0)
    requires !Counts(boxes[k]) ==> m1 == m0
    requires Counts(boxes[k]) ==>
      var day := boxes[k].day.value;
      m1 == m0[day := (if day in m0 then m0[day] else []) + [boxes[k].hour.value]]
    ensures GroupedUpTo(boxes, k + 1, m1)
  {
    forall d ensures (d in m1 <==> HoursFor(boxes[..k + 1], d) != []) &&
                     (d in m1 ==> m1[d] == HoursFor(boxes[..k + 1], d)) {
      HoursForStep(boxes, k, d);
    }
  }

  /** Lines 788-798: the hours grouped under their day key. */
  method CollectHoursByDay(boxes: seq<HourBox>) returns (byDay: map<string, seq<int>>)
    ensures forall d :: d in byDay <==> HoursFor(boxes, d) != []
    ensures forall d | d in byDay :: byDay[d] == HoursFor(boxes, d)
  {
    byDay := map[];
    for k := 0 to |boxes|
      invariant GroupedUpTo(boxes, k, byDay)
    {
      var b := boxes[k];
      ghost var before := byDay;
      if b.hour.Some? && 0 <= b.hour.value <= 23 && b.day.Some? {
        var day := b.day.value;
        if day !in byDay {
          byDay := byDay[day := []];
        }
        byDay := byDay[day := byDay[day] + [b.hour.value]];
      }
      CollectStep(boxes, k, before, byDay);
    }
    assert boxes[..|boxes|] == boxes;
  }

  /** Lines 800-805: drop the days whose list is empty. */
  function DropEmpty(byDay: map<string, seq<int>>): (r: map<string, seq<int>>)
    ensures forall d :: d in r <==> d in byDay && byDay[d] != []
    ensures forall d | d in r :: r[d] == byDay[d]
  {
    map d | d in byDay && byDay[d] != [] :: byDay[d]
  }

  /** The collected map has no empty list, so dropping empty lists never
      removes a day from it. */
  lemma DropEmptyAfterCollect(boxes: seq<HourBox>, byDay: map<string, seq<int>>)
    requires forall d :: d in byDay <==> HoursFor(boxes, d) != []
    requires forall d | d in byDay :: byDay[d] == HoursFor(boxes, d)
    ensures DropEmpty(byDay) == byDay
  {
  }

  /** An empty category is sent as null. */
  function NullIfEmpty<T>(xs: seq<T>): (r: Option<seq<T>>)
    ensures r.None? <==> xs == []
    ensures r.Some? ==> r.value == xs
  {
    if xs == [] then None else Some(xs)
  }

  /** Lines 783-815: the constraints saved for a soldier. Days are only
      0..6, hours only 0..23 grouped by day in box order, positions as
      checked, and no category is an empty list. */
  method SaveConstraints(dayValues: seq<Option<int>>, hourBoxes: seq<HourBox>, positionValues: seq<string>)
    returns (c: SoldierConstraints)
    ensures c.forbiddenDaysOfWeek == NullIfEmpty(KeepDays(dayValues))
    ensures c.forbiddenPositions == NullIfEmpty(positionValues)
    ensures c.forbiddenHoursByDay.None? <==> forall b | b in hourBoxes :: !Counts(b)
    ensures c.forbiddenHoursByDay.Some? ==>
      var m := c.forbiddenHoursByDay.value;
      (forall d :: d in m <==> HoursFor(hourBoxes, d) != []) &&
      (forall d | d in m :: m[d] == HoursFor(hourBoxes, d) && m[d] != [] &&
                            forall h | h in m[d] :: 0 <= h <= 23)
  {
    var days := KeepDays(dayValues);
    var byDay := CollectHoursByDay(hourBoxes);
    forall b | b in hourBoxes && Counts(b) ensures HoursFor(hourBoxes, b.day.value) != [] {
      HoursForEmpty(hourBoxes, b.day.value);
    }
    DropEmptyAfterCollect(hourBoxes, byDay);
    byDay := DropEmpty(byDay);
    var hours: Option<map<string, seq<int>>> := if |byDay| > 0 then Some(byDay) else None;
    if hours.Some? {
      var d :| d in byDay;
      HoursForEmpty(hourBoxes, d);
    }
    c := SoldierConstraints(NullIfEmpty(positionValues), NullIfEmpty(days), hours);
  }
}
