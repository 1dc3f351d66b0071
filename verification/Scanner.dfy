// The scanner: a match loop over a buffer that is shifted, grown and refilled while a token is being matched.

module Scanner {
  import opened ScannerTables
  import opened ScannerAutomaton

  datatype Status = New | Normal | EofPending

  datatype Refill = ContinueScan | EndOfFile | LastMatch

  /** How a scan goes on: reading more, deciding on the match, or not at all. */
  datatype Resume = Rescan | Decide | Final

  const YY_BUF_SIZE := 16384
  const YY_READ_BUF_SIZE := 8192

  class MaximaScanner {
    var buf: array<Byte>   // yy_ch_buf
    var size: int          // yy_buf_size
    var n: int             // yy_n_chars
    var cp: int            // yy_c_buf_p
    var text: int          // yytext_ptr
    var hold: Byte         // yy_hold_char
    var status: Status     // yy_buffer_status
    var start: int         // yy_start
    var lastState: int     // yy_last_accepting_state
    var lastPos: int       // yy_last_accepting_cpos
    var input: seq<Byte>   // what the file still holds

    /** The buffer has room for its capacity and two end marks, which follow the `n` bytes read. */
    ghost predicate Marked()
      reads this, buf
    {
      0 <= n <= size && 0 < size && size + 2 == buf.Length && buf[n] == 0 && buf[n + 1] == 0 && IsStart(start) &&
      (status == New ==> n == 0) && (status == EofPending ==> input == [])
    }

    /** Between two tokens the byte at `cp` is kept in `hold`. */
    ghost predicate Ready()
      reads this, buf
    {
      0 <= cp <= n <= size && 0 < size && size + 2 == buf.Length && buf[n + 1] == 0 && IsStart(start) &&
      (if cp == n then hold == 0 else buf[n] == 0) &&
      (status == New ==> n == 0) && (status == EofPending ==> input == [])
    }

    /** The text not yet matched: what the buffer still holds, then what the file still holds. */
    ghost function Remaining(): seq<Byte>
      requires Ready()
      reads this, buf
    {
      (if cp < n then [hold] + buf[cp + 1..n] else []) + input
    }

    constructor (file: seq<Byte>)
      ensures Ready() && Remaining() == file && start == INITIAL_START && fresh(buf)
    {
      size := YY_BUF_SIZE;
      buf := new Byte[YY_BUF_SIZE + 2](_ => 0);
      n, cp, text, hold, status, start := 0, 0, 0, 0, New, INITIAL_START;
      lastState, lastPos := 0, 0;
      input := file;
    }

    /** `BEGIN`: another start condition. */
    method SetStart(start1: int)
      requires Ready() && IsStart(start1)
      modifies this`start
      ensures Ready() && start == start1 && Remaining() == old(Remaining())
    {
      start := start1;
    }

    /** The next state, through the chain of defaults. */
    method Transition(state: int, class0: int) returns (next: int)
      requires IsState(state) && IsClass(class0)
      ensures next == Step(state, class0)
    {
      var s, c := state, class0;
      while YyChk(YyBase(s) + c) != s
        invariant IsState(s) && IsClass(c) && Step(s, c) == Step(state, class0)
        decreases Rank(s)
      {
        hide YyChk, YyBase, YyDef, YyMeta, YyNxt;
        DefaultsEnd(s, c);
        MetaIsClass(c);
        s := YyDef(s);
        if s >= TEMPLATES { c := YyMeta(c); }
      }
      next := YyNxt(YyBase(s) + c);
    }

    /** The record kept of the best match among the strict prefixes of the text from `from` to `to`. */
    ghost predicate Remembers(from: int, to: int)
      requires 0 <= from <= to <= buf.Length
      reads this, buf
    {
      Recorded(start, buf[from..to], lastPos - from, lastState)
    }

    /** Remembers a match that ends here, then moves over one byte of the text. */
    method Advance(bp: int, p: int, state: int, c: int) returns (next: int)
      requires Marked() && 0 <= bp <= p < n && Remembers(bp, p)
      requires state == Run(start, buf[bp..p]) && c == ClassOf(buf[p])
      modifies this`lastState, this`lastPos
      ensures Remembers(bp, p + 1) && next == Run(start, buf[bp..p + 1])
      ensures YyAccept(state) == 0 ==> lastState == old(lastState) && lastPos == old(lastPos)
    {
      hide Run, YyAccept, Step;
      ghost var w := buf[bp..p];
      RecordedGrows(start, w, buf[p], lastPos - bp, lastState);
      RunGrows(start, w, buf[p]);
      assert buf[bp..p + 1] == w + [buf[p]];
      if YyAccept(state) != 0 { lastState, lastPos := state, p; }
      next := Transition(state, c);
    }

    /** The match loop: up to a state without transitions, or over the next NUL and the byte after it. */
    method MatchLoop(bp: int, p0: int, s0: int) returns (p: int, s: int, ghost marked: bool)
      requires Marked() && 0 <= bp <= p0 <= n && Remembers(bp, p0)
      requires s0 == Run(start, buf[bp..p0]) && Live(s0)
      modifies this`lastState, this`lastPos
      ensures !marked ==> p0 < p <= n && s == Run(start, buf[bp..p]) && YyBase(s) == LAST_BASE && Remembers(bp, p)
      ensures marked ==>
        s == JAM && p0 <= p - 2 <= n && buf[p - 2] == 0 && lastState == END_STATE && lastPos == p - 1 &&
        Live(Run(start, buf[bp..p - 2]))
    {
      hide Run, YyAccept, YyBase, Step;
      p, s, marked := p0, s0, false;
      while true
        invariant p0 <= p <= n && Remembers(bp, p) && s == Run(start, buf[bp..p]) && Live(s)
        decreases n - p
      {
        if buf[p] == 0 {
          EndMark(s, YyEcClass(buf[p + 1]));
          var end := Transition(s, 0);
          lastState, lastPos := END_STATE, p + 1;
          var jam := Transition(end, YyEcClass(buf[p + 1]));
          return p + 2, jam, true;
        }
        s := Advance(bp, p, s, YyEcClass(buf[p]));
        p := p + 1;
        if YyBase(s) == LAST_BASE { break; }
        JamHasLastBase(s);
      }
    }

    /** Computes again the state lost when the scan ran into an end-of-buffer mark. */
    method PreviousState() returns (s: int)
      requires Marked() && 0 <= text <= cp <= n
      modifies this`lastState, this`lastPos
      ensures s == Run(start, buf[text..cp]) && Remembers(text, cp)
    {
      hide Run, YyAccept, Step;
      s := start;
      assert buf[text..text] == [];
      RunEmpty(start);
      var p := text;
      while p < cp
        invariant text <= p <= cp && s == Run(start, buf[text..p]) && Remembers(text, p)
      {
        s := Advance(text, p, s, if buf[p] != 0 then YyEcClass(buf[p]) else 1);
        p := p + 1;
      }
    }

    /** The transition on a NUL of the text; 0 when there is none. */
    method TryNul(s: int) returns (next: int)
      requires Marked() && 0 <= text <= cp < n && buf[cp] == 0 && Remembers(text, cp)
      requires s == Run(start, buf[text..cp])
      modifies this`lastState, this`lastPos
      ensures var t := Run(start, buf[text..cp + 1]); next == if t == JAM then 0 else t
      ensures if next == 0 then YyAccept(s) != 0 || Remembers(text, cp) else Remembers(text, cp + 1)
    {
      hide Run, YyAccept, Step;
      next := Advance(text, cp, s, 1);
      if next == JAM { next := 0; }
    }

    /** Reads some of the file, at most `room` bytes, behind the first `at` bytes; nothing only at its end. */
    method Read(at: int, room: int) returns (got: int)
      requires 0 <= at && 0 < room && at + room <= buf.Length
      modifies buf, this`input
      ensures 0 <= got <= room && (got == 0 <==> old(input) == [])
      ensures buf[..at] == old(buf[..at]) && buf[at..at + got] + input == old(input)
    {
      if input == [] { return 0; }
      got :| 1 <= got <= room && got <= |input|;
      forall k | 0 <= k < got { buf[at + k] := input[k]; }
      assert buf[at..at + got] == input[..got];
      input := input[got..];
    }

    /** Doubles the buffer until it has room for more than `toMove` bytes. */
    method Grow(toMove: int)
      requires 0 <= toMove <= size && 0 < size && size + 2 == buf.Length
      modifies this`buf, this`size
      ensures toMove + 1 < size && size + 2 == buf.Length && (buf == old(buf) || fresh(buf))
      ensures buf[..toMove] == old(buf[..toMove])
    {
      while size - toMove - 1 <= 0
        invariant toMove <= size && 0 < size && size + 2 == buf.Length && (buf == old(buf) || fresh(buf))
        invariant buf[..toMove] == old(buf[..toMove])
        decreases toMove + 1 - size
      {
        size := size * 2;
        var bigger := new Byte[size + 2](_ => 0);
        forall k | 0 <= k < buf.Length { bigger[k] := buf[k]; }
        assert bigger[..toMove] == buf[..toMove];
        buf := bigger;
      }
    }

    /** Moves the pending text to the front of the buffer. */
    method MoveToFront(toMove: int)
      requires 0 <= text && 0 <= toMove && text + toMove <= buf.Length
      modifies buf
      ensures buf[..toMove] == old(buf[text..text + toMove])
    {
      var i := 0;
      while i < toMove
        invariant 0 <= i <= toMove
        invariant forall k :: 0 <= k < i ==> buf[k] == old(buf[text + k])
        invariant forall k :: i <= k < buf.Length ==> buf[k] == old(buf[k])
      {
        buf[i] := buf[text + i];
        i := i + 1;
      }
    }

    /** Reads behind the first `toMove` bytes, unless the end of the file was seen before. */
    method Fill(toMove: int) returns (got: int)
      requires 0 <= toMove <= size && 0 < size && size + 2 == buf.Length && (status == EofPending ==> input == [])
      modifies this`buf, this`size, this`input, buf
      ensures 0 < size && size + 2 == buf.Length && (buf == old(buf) || fresh(buf))
      ensures 0 <= got <= size - toMove && (got == 0 <==> old(input) == [])
      ensures buf[..toMove + got] + input == old(buf[..toMove]) + old(input)
    {
      got := 0;
      if status != EofPending {
        Grow(toMove);
        got := Read(toMove, if size - toMove - 1 > YY_READ_BUF_SIZE then YY_READ_BUF_SIZE else size - toMove - 1);
      }
      assert buf[..toMove + got] == buf[..toMove] + buf[toMove..toMove + got];
    }

    /**
     * Moves the pending text to the front of the buffer, growing it when it is full, and reads more behind it. How much
     * a read returns is not determined.
     */
    method NextBuffer() returns (r: Refill)
      requires Marked() && status != New && 0 <= text <= n && cp == n + 1
      modifies this, buf
      ensures Marked() && start == old(start) && text == 0 && (buf == old(buf) || fresh(buf))
      ensures buf[..n] + input == old(buf[text..n]) + old(input)
      ensures r == ContinueScan ==> n > old(n - text) && |input| < |old(input)|
      ensures r != ContinueScan ==> n == old(n - text) && input == [] == old(input)
      ensures r == EndOfFile <==> r != ContinueScan && n == 0
      ensures r == EndOfFile ==> cp == 0 && hold == 0
    {
      hide IsStart;
      var toMove := cp - text - 1;
      MoveToFront(toMove);
      var got := Fill(toMove);
      ghost var all := old(buf[text..n]) + old(input);
      assert |all| == toMove + |old(input)| == toMove + got + |input|;
      r := if got != 0 then ContinueScan else if toMove == 0 then EndOfFile else LastMatch;
      match r {
        case EndOfFile => cp, hold, status := 0, 0, New;
        case LastMatch => status := EofPending;
        case ContinueScan =>
      }
      MarkEnd(got + toMove);
      text := 0;
    }

    /** Writes the two end marks behind `m` bytes. */
    method MarkEnd(m: int)
      requires 0 <= m && m + 2 <= buf.Length
      modifies this`n, buf
      ensures n == m && buf[..m] == old(buf[..m]) && buf[m] == 0 && buf[m + 1] == 0
    {
      n := m;
      buf[m], buf[m + 1] := 0, 0;
    }

    /** The scan has read the pending text up to `p`, which leads to the state `s`. */
    ghost predicate Scanned(p: int, s: int)
      reads this, buf
    {
      Marked() && 0 <= text <= p <= n && s == Run(start, buf[text..p]) && Live(s)
    }

    /** The scan stops at `p`: nothing longer matches, and a match is at hand. */
    ghost predicate Stopped(p: int, s: int)
      reads this, buf
    {
      Marked() && 0 <= text < p <= n && s == Run(start, buf[text..p]) && (YyAccept(s) != 0 || Remembers(text, p)) &&
      Exhausted(start, Ahead(), p - text)
    }

    /** The pending text followed by the rest of the file. */
    ghost function Ahead(): seq<Byte>
      requires Marked() && 0 <= text <= n
      reads this, buf
    {
      buf[text..n] + input
    }

    /** Where the scan stops, the text read so far or the remembered prefix of it is the longest match. */
    lemma Decides(p: int, s: int)
      requires Stopped(p, s)
      ensures var (q, t) := Choice(p, s);
        text < q <= p && Longest(start, Ahead(), q - text) && t == Run(start, Ahead()[..q - text]) &&
        0 < YyAccept(t) < END_OF_BUFFER
    {
      hide Run, YyAccept;
      assert Ahead()[..p - text] == buf[text..p];
      StopDecides(start, Ahead(), p - text, lastPos - text, lastState);
      JamActs();
      Accepts(Choice(p, s).1);
    }

    /** The end and the state of the match to act on: here, or the remembered one. */
    function Choice(p: int, s: int): (int, int)
      reads this
    {
      if YyAccept(s) != 0 then (p, s) else (lastPos, lastState)
    }

    /** Finds the rule to act on, backing up to the remembered match if the state at `p` has none. */
    method FindAction(p: int, s: int) returns (act: int)
      requires Marked() && 0 <= text <= Choice(p, s).0 <= n + 1
      modifies this`cp, this`hold, this`text, buf
      ensures Marked() && text == old(text) && cp == Choice(p, s).0 && act == YyAccept(Choice(p, s).1)
      ensures hold == old(buf[..])[cp] && buf[..] == old(buf[..])[cp := 0]
    {
      var end, state := p, s;
      act := YyAccept(state);
      if act == 0 {
        end, state := lastPos, lastState;
        act := YyAccept(state);
      }
      BeforeAction(text, end);
    }

    /** Marks the match that ends at `p`: its text ends with a NUL, and `hold` keeps the byte this overwrites. */
    method BeforeAction(bp: int, p: int)
      requires Marked() && 0 <= bp <= p <= n + 1
      modifies this`text, this`cp, this`hold, buf
      ensures Marked() && text == bp && cp == p && hold == old(buf[p]) && buf[..] == old(buf[..])[p := 0]
    {
      text, cp, hold := bp, p, buf[p];
      buf[p] := 0;
    }

    /** No prefix of `ahead` beyond the first `m` bytes matches a rule. */
    static ghost predicate Exhausted(start: int, ahead: seq<Byte>, m: int)
      requires IsStart(start) && 0 <= m
    {
      forall k :: m < k <= |ahead| ==> Rule(start, ahead[..k]) == 0
    }

    /** At a NUL of the text: over it if a transition allows, else the scan stops before it. */
    method OverNul(ghost s0: int) returns (o: Resume, s: int)
      requires Scanned(cp, s0) && cp < n && buf[cp] == 0
      modifies this`cp, this`lastState, this`lastPos
      ensures o != Final && Scanned(cp, s)
      ensures o == Rescan ==> cp == old(cp) + 1 && Remembers(text, cp)
      ensures o == Decide ==> cp == old(cp) && Stopped(cp, s)
    {
      hide Run, YyAccept, Step, IsStart;
      s := PreviousState();
      var next := TryNul(s);
      if next != 0 {
        cp, s, o := cp + 1, next, Rescan;
      } else {
        o := Decide;
        assert Ahead()[..cp - text] == buf[text..cp] && Ahead()[..cp + 1 - text] == buf[text..cp + 1];
        StuckAt(start, Ahead(), cp - text);
      }
    }

    static lemma AllRead(start: int, text: seq<Byte>)
      requires IsStart(start)
      ensures Exhausted(start, text, |text|)
    {
    }

    /** More text, or the end of the file, where the scan met the end of the buffer. */
    method AtBufferEnd(ghost s0: int) returns (o: Resume, s: int)
      requires Scanned(n, s0) && cp == n + 1 && status != New
      modifies this, buf
      ensures start == old(start) && (buf == old(buf) || fresh(buf))
      ensures Marked() && 0 <= text <= n && Ahead() == old(Ahead())
      ensures o == Final ==> Ahead() == [] && Ready() && Remaining() == []
      ensures o == Rescan ==> Scanned(cp, s) && Remembers(text, cp) && |input| < |old(input)|
      ensures o == Decide ==> Scanned(cp, s) && Stopped(cp, s) && |input| == |old(input)| && cp == n
    {
      hide Run, YyAccept, Step, IsStart, Exhausted, Recorded, Live;
      var matched := cp - text - 1;
      ghost var w := buf[text..n];
      var r := NextBuffer();
      assert w == Ahead()[..matched] == buf[..matched] == buf[text..text + matched];
      match r {
        case EndOfFile =>
          cp, o, s := text, Final, start;
        case ContinueScan =>
          s := BackAt(text + matched, s0);
          o := Rescan;
        case LastMatch =>
          s := BackAt(n, s0);
          AllRead(start, Ahead());
          o := Decide;
      }
    }

    /** Goes back to the end of the text that the scan had read before the buffer moved. */
    method BackAt(p: int, ghost s0: int) returns (s: int)
      requires Marked() && 0 <= text <= p <= n && s0 == Run(start, buf[text..p]) && Live(s0)
      modifies this`cp, this`lastState, this`lastPos
      ensures cp == p && Scanned(cp, s) && Remembers(text, cp)
    {
      hide Run, IsStart, Recorded, Live;
      cp := p;
      s := PreviousState();
    }

    /** What the scanner does where its scan met an end-of-buffer mark or a NUL of the text just before `cp`. */
    method EndOfBuffer(ghost was: seq<Byte>, ghost s0: int) returns (o: Resume, s: int)
      requires Marked() && 0 <= text < cp <= n + 1
      requires |was| == buf.Length && buf[..] == was[cp := 0] && hold == was[cp]
      requires was[cp - 1] == was[n] == was[n + 1] == 0 && s0 == Run(start, was[text..cp - 1]) && Live(s0)
      modifies this, buf
      ensures start == old(start) && (buf == old(buf) || fresh(buf))
      ensures Marked() && 0 <= text <= n && Ahead() == was[old(text)..old(n)] + old(input)
      ensures o == Final ==> Ahead() == [] && Ready() && Remaining() == []
      ensures o != Final ==> Scanned(cp, s)
      ensures o == Rescan ==> Remembers(text, cp)
      ensures o == Rescan ==> |input| < |old(input)| || (input == old(input) && n == old(n) && cp == old(cp))
      ensures o == Decide ==> Stopped(cp, s) && |input| == |old(input)| && n - cp <= old(n - cp) + 1
    {
      hide Run, YyAccept, Step, IsStart;
      var matched := cp - text - 1;
      buf[cp] := hold;
      assert buf[..] == was;
      if status == New { status := Normal; }
      assert Ahead() == was[text..n] + input;
      if cp <= n {
        cp := text + matched;
        o, s := OverNul(s0);
      } else {
        o, s := AtBufferEnd(s0);
      }
    }

    /** Where the match loop meets a state without transitions, the scan stops. */
    lemma StopsHere(p: int, s: int)
      requires Marked() && 0 <= text < p <= n && s == Run(start, buf[text..p]) && YyBase(s) == LAST_BASE
      requires Remembers(text, p)
      ensures Stopped(p, s)
    {
      hide Run, YyAccept, Step, YyBase, IsStart;
      assert Ahead()[..p - text] == buf[text..p];
      NothingLonger(start, Ahead(), p - text);
    }

    /** The longest match at the start of `ahead` has been taken: its `m` bytes are the NUL-terminated token text. */
    ghost predicate Matched(ahead: seq<Byte>, act: int, m: int)
      reads this, buf
    {
      Ready() && Longest(start, ahead, m) && act == Rule(start, ahead[..m]) && Remaining() == ahead[m..] &&
      0 <= text <= cp && buf[text..cp] == ahead[..m] && buf[cp] == 0
    }

    /** Once a match of `m` bytes is marked, what remains is what follows it. */
    lemma Taken(was: seq<Byte>, ahead: seq<Byte>, act: int, m: int)
      requires Marked() && 0 <= text && 0 <= m && cp == text + m <= n
      requires |was| == buf.Length && buf[..] == was[cp := 0] && hold == was[cp] && was[n] == 0
      requires ahead == was[text..n] + input && Longest(start, ahead, m) && act == Rule(start, ahead[..m])
      ensures ahead != [] && Ready() && Matched(ahead, act, m)
    {
      hide IsStart, Run, YyAccept;
      assert buf[text..cp] == was[text..cp] == ahead[..m];
      assert ahead[m..] == was[cp..n] + input;
      if cp < n { assert was[cp..n] == [hold] + buf[cp + 1..n]; }
    }

    /**
     * Matches from `p` on, or decides on the match at `p`, and finds the rule to act on. The end of the buffer counts as
     * a rule: then `was` is the buffer before the action, and `s0` the state before the mark.
     */
    method MatchAndFind(p0: int, state: int, matching: bool)
      returns (act: int, ghost m: int, ghost was: seq<Byte>, ghost s0: int)
      requires Scanned(p0, state) && if matching then Remembers(text, p0) else Stopped(p0, state)
      modifies this`lastState, this`lastPos, this`cp, this`hold, this`text, buf
      ensures was == old(buf[..]) && text == old(text) && |was| == buf.Length
      ensures Marked() && text < cp <= n + 1 && buf[..] == was[cp := 0] && hold == was[cp] && m == cp - text
      ensures was[n] == was[n + 1] == 0
      ensures act != END_OF_BUFFER ==> cp <= n && Longest(start, old(Ahead()), m) && act == Rule(start, old(Ahead())[..m])
      ensures act == END_OF_BUFFER ==> matching && p0 < cp && was[cp - 1] == 0 && s0 == Run(start, was[text..cp - 1])
      ensures act == END_OF_BUFFER ==> Live(s0)
    {
      hide Run, YyAccept, Step, YyBase, IsStart, Live;
      var p, s := p0, state;
      s0, was := s, buf[..];
      ghost var marked := false;
      if matching { p, s, marked := MatchLoop(text, p, s); }
      if marked {
        JamActs();
        s0 := Run(start, buf[text..p - 2]);
      } else {
        if matching { StopsHere(p, s); }
        Decides(p, s);
      }
      act := FindAction(p, s);
      m := cp - text;
    }

    /** Puts back the byte the last match was marked over. */
    method Begin()
      requires Ready()
      modifies this`text, buf
      ensures Scanned(cp, start) && Remembers(text, cp) && Ahead() == old(Remaining())
    {
      hide Run, YyAccept, IsStart;
      buf[cp] := hold;
      text := cp;
      assert buf[cp..cp] == [];
      RunEmpty(start);
      StartLives(start);
      if cp < n { assert buf[cp..n] == [hold] + buf[cp + 1..n]; }
    }

    /** Scans one token and returns the number of its rule; at the end of the file, the end action. */
    method Match() returns (act: int, ghost m: int)
      requires Ready()
      modifies this, buf
      ensures Ready() && start == old(start) && (buf == old(buf) || fresh(buf))
      ensures old(Remaining()) == [] ==> act == EofAction(start) && Remaining() == []
      ensures old(Remaining()) != [] ==> Matched(old(Remaining()), act, m)
    {
      hide Run, YyAccept, Step, YyBase, IsStart, Live, Matched, Longest;
      ghost var ahead := Remaining();
      Begin();
      var p, s, matching := cp, start, true;
      while true
        invariant start == old(start) && (buf == old(buf) || fresh(buf)) && Scanned(p, s) && Ahead() == ahead
        invariant if matching then Remembers(text, p) else Stopped(p, s)
        decreases |input|, n - p, matching
      {
        ghost var was, s0;
        act, m, was, s0 := MatchAndFind(p, s, matching);
        if act != END_OF_BUFFER {
          Taken(was, ahead, act, m);
          return;
        }
        var o;
        o, s := EndOfBuffer(was, s0);
        p := cp;
        if o == Final {
          act := EofAction(start);
          return;
        }
        matching := o == Rescan;
      }
    }
  }

  function YyEcClass(b: Byte): (c: int)
    ensures IsClass(c) && (b != 0 ==> c == ClassOf(b)) && (b == 0 ==> c == 0)
  {
    YyEc(b)
  }

  lemma JamHasLastBase(s: int)
    requires YyBase(s) != LAST_BASE
    ensures s != JAM
  {
  }

  lemma RunEmpty(start: int)
    requires IsStart(start)
    ensures Run(start, []) == start
  {
  }

  function EofAction(start: int): int { END_OF_BUFFER + (start - 1) / 2 + 1 }

  /** Where the next byte jams, no longer prefix matches. */
  lemma StuckAt(start: int, ahead: seq<Byte>, m: int)
    requires IsStart(start) && 0 <= m < |ahead| && Run(start, ahead[..m + 1]) == JAM
    ensures m > 0 && forall k :: m < k <= |ahead| ==> Rule(start, ahead[..k]) == 0
  {
    hide Step;
    NothingLonger(start, ahead, m + 1);
    if m == 0 { FirstByteRule(start, ahead); }
    assert Rule(start, ahead[..m + 1]) == 0;
  }

  lemma JamActs()
    ensures YyAccept(JAM) == 0 && YyAccept(END_STATE) == END_OF_BUFFER
  {
  }

  lemma StartLives(start: int)
    requires IsStart(start)
    ensures Live(start)
  {
  }
}
