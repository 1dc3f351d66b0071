// The automaton behind the compressed tables, and what longest match means for it.

module ScannerAutomaton {
  import opened ScannerTables

  const JAM := 77            // no way on
  const END_STATE := 5       // reached on an end-of-buffer mark
  const TEMPLATES := 78      // states from here on only serve as defaults
  const LAST_BASE := 161     // states with this base have no transition of their own
  const END_OF_BUFFER := 25
  const INITIAL_START := 1
  const OUTPUT_START := 3

  type Byte = b: int | 0 <= b < 256

  predicate IsState(s: int) { 1 <= s <= 80 }

  predicate IsClass(c: int) { 0 <= c <= 47 }

  /** How many more defaults a lookup in state `s` can follow. */
  function Rank(s: int): nat {
    if s == JAM then 0 else if YyDef(s) == JAM then 1 else 2
  }

  /** Every lookup is either found or moves to a default of smaller rank. */
  lemma DefaultsEnd(s: int, c: int)
    requires IsState(s) && IsClass(c) && YyChk(YyBase(s) + c) != s
    ensures IsState(YyDef(s)) && Rank(YyDef(s)) < Rank(s)
  {
  }

  lemma MetaIsClass(c: int)
    requires IsClass(c)
    ensures IsClass(YyMeta(c))
  {
  }

  function Fallback(s: int, c: int): int { if YyDef(s) >= TEMPLATES then YyMeta(c) else c }

  /** The transition of state `s` on class `c`. */
  function Step(s: int, c: int): int
    requires IsState(s) && IsClass(c)
    decreases Rank(s)
  {
    if YyChk(YyBase(s) + c) == s then YyNxt(YyBase(s) + c)
    else
      DefaultsEnd(s, c);
      MetaIsClass(c);
      Step(YyDef(s), Fallback(s, c))
  }

  /** States a text without end-of-buffer mark can reach and still grow from. */
  predicate Live(s: int) { 1 <= s < JAM && s != END_STATE }

  /** The class of a byte of the text; a NUL of the text is an ordinary byte. */
  function ClassOf(b: Byte): (c: int)
    ensures 1 <= c <= 47
  {
    if b == 0 then 1 else YyEc(b)
  }

  lemma StepStays(s: int, c: int)
    requires (Live(s) || s == JAM) && 1 <= c <= 47
    ensures Live(Step(s, c)) || Step(s, c) == JAM
    ensures s == JAM || YyBase(s) == LAST_BASE ==> Step(s, c) == JAM
  {
    if s == JAM || YyBase(s) == LAST_BASE { StepJams(s, c); } else { StepLives(s, c); }
  }

  lemma StepJams(s: int, c: int)
    requires (Live(s) && YyBase(s) == LAST_BASE) || s == JAM
    requires 1 <= c <= 47
    ensures Step(s, c) == JAM
  {
    if s != JAM { LastBaseJams(s, c); }
  }

  lemma LastBaseJams(s: int, c: int)
    requires Live(s) && YyBase(s) == LAST_BASE && 1 <= c <= 47
    ensures Step(s, c) == JAM
  {
    hide YyAccept;
  }

  lemma StepLives(s: int, c: int)
    requires IsState(s) && 1 <= c <= 47
    ensures Live(Step(s, c)) || Step(s, c) == JAM
    decreases Rank(s)
  {
    hide YyChk, YyNxt, YyBase, YyDef, YyMeta, Rank;
    if YyChk(YyBase(s) + c) == s {
      EntryLives(s, c);
    } else {
      DefaultsEnd(s, c);
      MetaIsOrdinary(c);
      StepLives(YyDef(s), Fallback(s, c));
    }
  }

  lemma EntryLives(s: int, c: int)
    requires IsState(s) && 1 <= c <= 47 && YyChk(YyBase(s) + c) == s
    ensures Live(YyNxt(YyBase(s) + c)) || YyNxt(YyBase(s) + c) == JAM
  {
  }

  lemma MetaIsOrdinary(c: int)
    requires 1 <= c <= 47
    ensures 1 <= YyMeta(c) <= 47
  {
  }

  /** An end-of-buffer mark leads from every state to END_STATE, and anything after it jams. */
  lemma EndMark(s: int, c: int)
    requires Live(s) && IsClass(c)
    ensures Step(s, 0) == END_STATE && Step(END_STATE, c) == JAM
  {
  }

  lemma Accepts(s: int)
    requires Live(s)
    ensures 0 <= YyAccept(s) < END_OF_BUFFER
    ensures YyBase(s) == LAST_BASE ==> YyAccept(s) != 0
  {
  }

  predicate IsStart(s: int) { s == INITIAL_START || s == OUTPUT_START }

  /** Every single byte is a match, so a scan always makes progress. */
  lemma FirstByteMatches(start: int, c: int)
    requires IsStart(start) && 1 <= c <= 47
    ensures Live(Step(start, c)) && YyAccept(Step(start, c)) != 0
  {
  }

  // ----- texts -----

  /** The state after a text. */
  function Run(start: int, text: seq<Byte>): (s: int)
    requires IsStart(start)
    ensures Live(s) || s == JAM
  {
    if text == [] then start
    else
      var s := Run(start, text[..|text| - 1]);
      var c := ClassOf(text[|text| - 1]);
      StepStays(s, c);
      Step(s, c)
  }

  /** The rule a text matches, 0 for none. */
  function Rule(start: int, text: seq<Byte>): int
    requires IsStart(start)
  {
    YyAccept(Run(start, text))
  }

  /** The first `n` bytes of the text match a rule, and no longer prefix matches any. */
  ghost predicate Longest(start: int, text: seq<Byte>, n: int) {
    IsStart(start) && 0 < n <= |text| && Rule(start, text[..n]) != 0 &&
    forall k :: n < k <= |text| ==> Rule(start, text[..k]) == 0
  }

  lemma RunJammed(start: int, text: seq<Byte>, more: seq<Byte>)
    requires IsStart(start) && more != []
    requires Run(start, text) == JAM || YyBase(Run(start, text)) == LAST_BASE
    ensures Run(start, text + more) == JAM
    decreases |more|
  {
    var n := |more| - 1;
    assert (text + more)[..|text + more| - 1] == text + more[..n];
    assert (text + more)[|text + more| - 1] == more[n];
    if n == 0 { assert text + more[..n] == text; } else { RunJammed(start, text, more[..n]); }
    StepStays(Run(start, text + more[..n]), ClassOf(more[n]));
  }

  // ----- what the scanner remembers -----

  /**
   * The record of a backup point: if some prefix of `w` shorter than `w` matches a rule, the longest such prefix has
   * length `at` and leads to state `s`.
   */
  ghost predicate Recorded(start: int, w: seq<Byte>, at: int, s: int) {
    IsStart(start) &&
    forall k :: 0 <= k < |w| && Rule(start, w[..k]) != 0 ==>
      k <= at < |w| && s == Run(start, w[..at]) && YyAccept(s) != 0
  }

  lemma RecordedGrows(start: int, w: seq<Byte>, b: Byte, at: int, s: int)
    requires Recorded(start, w, at, s)
    ensures Rule(start, w) != 0 ==> Recorded(start, w + [b], |w|, Run(start, w))
    ensures Rule(start, w) == 0 ==> Recorded(start, w + [b], at, s)
  {
    hide Run, YyAccept;
    assert (w + [b])[..|w|] == w;
    assert forall k :: 0 <= k < |w| ==> (w + [b])[..k] == w[..k];
  }

  lemma RunGrows(start: int, w: seq<Byte>, b: Byte)
    requires IsStart(start)
    ensures Run(start, w + [b]) == Step(Run(start, w), ClassOf(b))
  {
    hide Step, ClassOf;
    assert (w + [b])[..|w + [b]| - 1] == w;
  }

  /** No text matches beyond a jam, or beyond a state that has no transition. */
  lemma NothingLonger(start: int, text: seq<Byte>, m: int)
    requires IsStart(start) && 0 <= m <= |text|
    requires Run(start, text[..m]) == JAM || YyBase(Run(start, text[..m])) == LAST_BASE
    ensures forall k :: m < k <= |text| ==> Rule(start, text[..k]) == 0
  {
    hide Run, YyBase;
    forall k | m < k <= |text|
      ensures Rule(start, text[..k]) == 0
    {
      assert text[..k] == text[..m] + text[m..k];
      RunJammed(start, text[..m], text[m..k]);
      assert YyAccept(JAM) == 0;
    }
  }

  /** Where the scan stops, the whole text read or the recorded prefix is the longest match. */
  lemma StopDecides(start: int, text: seq<Byte>, m: int, at: int, s: int)
    requires IsStart(start) && 0 < m <= |text|
    requires forall k :: m < k <= |text| ==> Rule(start, text[..k]) == 0
    requires Rule(start, text[..m]) != 0 || Recorded(start, text[..m], at, s)
    ensures Rule(start, text[..m]) != 0 ==> Longest(start, text, m)
    ensures Rule(start, text[..m]) == 0 ==> 0 < at < m && Longest(start, text, at) && s == Run(start, text[..at])
  {
    hide Run, YyAccept;
    if Rule(start, text[..m]) == 0 {
      FirstByteRule(start, text);
      var w := text[..m];
      assert forall k :: 0 <= k < m ==> w[..k] == text[..k];
      assert Rule(start, w[..1]) != 0;
    }
  }

  lemma FirstByteRule(start: int, text: seq<Byte>)
    requires IsStart(start) && text != []
    ensures Rule(start, text[..1]) != 0
  {
    hide Step, YyAccept;
    assert text[..1] == [] + [text[0]];
    RunGrows(start, [], text[0]);
    FirstByteMatches(start, ClassOf(text[0]));
  }
}
