/** The lucky-commit animation of internal/ui/common/lucky.go: a pulse that
    moves along a twenty-cell bar, a random hash redrawn on every tick, and
    the outcome of the external lucky_commit run. */
module LuckyUi {
  import opened Wrappers

  const Width := 20
  const PulseWidth := 6
  const FakeHashBytes := 20

  type Byte = x: int | 0 <= x < 256

  /** Go's `%` on int, which truncates toward zero. */
  function GoRem(a: int, n: int): (r: int)
    requires n > 0
    ensures a >= 0 ==> r == a % n
    ensures -n < r < n
  {
    if a >= 0 then a % n else -((-a) % n)
  }

  // ---------------------------------------------------------------------
  // The random hash: twenty bytes written as lowercase hexadecimal.
  // ---------------------------------------------------------------------

  function HexDigit(n: int): (c: char)
    requires 0 <= n < 16
    ensures ('0' <= c <= '9') || ('a' <= c <= 'f')
  {
    if n < 10 then (('0' as int) + n) as char else (('a' as int) + n - 10) as char
  }

  function DigitValue(c: char): int {
    if '0' <= c <= '9' then c as int - '0' as int
    else if 'a' <= c <= 'f' then c as int - 'a' as int + 10
    else 0
  }

  predicate IsLowerHex(c: char) {
    ('0' <= c <= '9') || ('a' <= c <= 'f')
  }

  /** hex.EncodeToString: two lowercase digits per byte, high nibble first. */
  function HexEncode(b: seq<Byte>): (s: string)
    ensures |s| == 2 * |b|
    ensures forall i :: 0 <= i < |s| ==> IsLowerHex(s[i])
  {
    if b == [] then [] else [HexDigit(b[0] / 16), HexDigit(b[0] % 16)] + HexEncode(b[1..])
  }

  /** The inverse reading of an encoded hash, two digits at a time. */
  function HexDecode(s: string): seq<int>
    decreases |s|
  {
    if |s| < 2 then [] else [16 * DigitValue(s[0]) + DigitValue(s[1])] + HexDecode(s[2..])
  }

  lemma {:induction false} HexRoundTrip(b: seq<Byte>)
    ensures HexDecode(HexEncode(b)) == b
  {
    if b != [] {
      var s := HexEncode(b);
      assert s[2..] == HexEncode(b[1..]);
      HexRoundTrip(b[1..]);
      assert DigitValue(HexDigit(b[0] / 16)) == b[0] / 16;
      assert DigitValue(HexDigit(b[0] % 16)) == b[0] % 16;
    }
  }

  /** generateFakeHash, with the random bytes as a parameter: forty
      lowercase hexadecimal characters that encode those bytes. */
  function FakeHash(bytes: seq<Byte>): (h: string)
    requires |bytes| == FakeHashBytes
    ensures |h| == 40
    ensures forall i :: 0 <= i < |h| ==> IsLowerHex(h[i])
    ensures HexDecode(h) == bytes
  {
    HexRoundTrip(bytes);
    HexEncode(bytes)
  }

  // ---------------------------------------------------------------------
  // The progress bar.
  // ---------------------------------------------------------------------

  const FullCell := '█'
  const EmptyCell := '░'

  /** The cell j steps into the pulse that starts at pos. */
  function PulseCell(pos: int, j: int): int {
    GoRem(pos + j, Width)
  }

  lemma PulseCellValue(pos: int, j: int)
    requires 0 <= pos < Width && 0 <= j < PulseWidth
    ensures PulseCell(pos, j) == if pos + j < Width then pos + j else pos + j - Width
  {
  }

  /** Cell i lies in the pulse that starts at pos. */
  predicate InPulse(pos: int, i: int) {
    exists j :: 0 <= j < PulseWidth && PulseCell(pos, j) == i
  }

  function Cell(pos: int, i: int): char {
    if InPulse(pos, i) then FullCell else EmptyCell
  }

  /** The bar renderProgressBar draws, without its colours. */
  function ProgressBar(pos: int): (bar: string)
    ensures |bar| == Width
  {
    seq(Width, i => Cell(pos, i))
  }

  /** renderProgressBar: for every cell, a scan of the pulse window that
      stops at the first hit. */
  method RenderProgressBar(pos: int) returns (bar: string)
    ensures bar == ProgressBar(pos)
  {
    bar := [];
    for i := 0 to Width
      invariant bar == ProgressBar(pos)[..i]
    {
      var inPulse := false;
      var j := 0;
      while j < PulseWidth
        invariant 0 <= j <= PulseWidth
        invariant !inPulse
        invariant forall k :: 0 <= k < j ==> PulseCell(pos, k) != i
      {
        if PulseCell(pos, j) == i {
          inPulse := true;
          break;
        }
        j := j + 1;
      }
      assert inPulse == InPulse(pos, i);
      if inPulse {
        bar := bar + [FullCell];
      } else {
        bar := bar + [EmptyCell];
      }
    }
  }

  /** For a position on the bar the pulse covers the six cells from pos on,
      wrapping past the end of the bar. */
  lemma PulseWindow(pos: int, i: int)
    requires 0 <= pos < Width && 0 <= i < Width
    ensures InPulse(pos, i) <==> (pos <= i < pos + PulseWidth || i < pos + PulseWidth - Width)
  {
    if pos <= i < pos + PulseWidth {
      PulseCellValue(pos, i - pos);
    } else if i < pos + PulseWidth - Width {
      PulseCellValue(pos, i + Width - pos);
    } else if InPulse(pos, i) {
      var j :| 0 <= j < PulseWidth && PulseCell(pos, j) == i;
      PulseCellValue(pos, j);
    }
  }

  function CountFull(s: string): (n: nat)
    ensures n <= |s|
  {
    if s == [] then 0 else (if s[0] == FullCell then 1 else 0) + CountFull(s[1..])
  }

  lemma {:induction false} CountFullAppend(a: string, b: string)
    ensures CountFull(a + b) == CountFull(a) + CountFull(b)
  {
    if a == [] {
      assert a + b == b;
    } else {
      assert (a + b)[1..] == a[1..] + b;
      CountFullAppend(a[1..], b);
    }
  }

  lemma {:induction false} CountFullRepeat(c: char, n: nat)
    ensures CountFull(seq(n, k => c)) == if c == FullCell then n else 0
  {
    if n > 0 {
      assert seq(n, k => c)[1..] == seq(n - 1, k => c);
      CountFullRepeat(c, n - 1);
    }
  }

  /** At every position the animation reaches, exactly six cells are full. */
  lemma PulseCount(pos: int)
    requires 0 <= pos < Width
    ensures CountFull(ProgressBar(pos)) == PulseWidth
  {
    var bar := ProgressBar(pos);
    if pos <= Width - PulseWidth {
      var x, y, z := seq(pos, k => EmptyCell), seq(PulseWidth, k => FullCell),
        seq(Width - PulseWidth - pos, k => EmptyCell);
      forall i | 0 <= i < Width ensures bar[i] == (x + y + z)[i] {
        PulseWindow(pos, i);
      }
      assert bar == x + y + z;
      CountFullAppend(x + y, z);
      CountFullAppend(x, y);
      CountFullRepeat(EmptyCell, pos);
      CountFullRepeat(FullCell, PulseWidth);
      CountFullRepeat(EmptyCell, Width - PulseWidth - pos);
    } else {
      var head := pos + PulseWidth - Width;
      var x, y, z := seq(head, k => FullCell), seq(Width - PulseWidth, k => EmptyCell),
        seq(Width - pos, k => FullCell);
      forall i | 0 <= i < Width ensures bar[i] == (x + y + z)[i] {
        PulseWindow(pos, i);
      }
      assert bar == x + y + z;
      CountFullAppend(x + y, z);
      CountFullAppend(x, y);
      CountFullRepeat(FullCell, head);
      CountFullRepeat(EmptyCell, Width - PulseWidth);
      CountFullRepeat(FullCell, Width - pos);
    }
  }

  /** One tick moves the pulse one cell along, wrapping at the end. */
  lemma PulseMoves(pos: int, i: int)
    requires 0 <= pos < Width && 0 <= i < Width
    ensures InPulse((pos + 1) % Width, (i + 1) % Width) <==> InPulse(pos, i)
  {
    PulseWindow(pos, i);
    PulseWindow((pos + 1) % Width, (i + 1) % Width);
  }

  // ---------------------------------------------------------------------
  // The model and its messages.
  // ---------------------------------------------------------------------

  /** The fields of luckyModel that Update changes. The command handle, the
      spinner and the hash callback are not state of the model. */
  datatype LuckyState = LuckyState(
    progressPos: int, fakeHash: string, done: bool, success: bool,
    cancelled: bool, err: Option<string>, hash: string)

  /** The messages Update handles. LuckyDone carries the run's error and
      what the hash callback returns when it is asked; LuckyTick carries
      the random bytes of the next fake hash. */
  datatype Msg =
    | KeyMsg(key: string)
    | SpinnerTick
    | LuckyTick(bytes: seq<Byte>)
    | LuckyDone(runErr: Option<string>, lookup: Option<string>)
    | OtherMsg

  datatype Cmd = NoCmd | Quit | SpinnerCmd | TickCmd

  predicate WellFormed(msg: Msg) {
    msg.LuckyTick? ==> |msg.bytes| == FakeHashBytes
  }

  /** newLuckyModel. */
  function NewLucky(bytes: seq<Byte>): (s: LuckyState)
    requires |bytes| == FakeHashBytes
    ensures s.progressPos == 0 && |s.fakeHash| == 40
    ensures !s.done && !s.success && !s.cancelled && s.err == None && s.hash == ""
  {
    LuckyState(0, FakeHash(bytes), false, false, false, None, "")
  }

  /** Update. A tick after the run has ended falls through and changes nothing. */
  function Step(s: LuckyState, msg: Msg): (LuckyState, Cmd)
    requires WellFormed(msg)
  {
    match msg
    case KeyMsg(key) =>
      if key == "ctrl+c" then (s.(cancelled := true), Quit) else (s, NoCmd)
    case SpinnerTick => (s, SpinnerCmd)
    case LuckyTick(bytes) =>
      if !s.done then (s.(progressPos := (s.progressPos + 1) % Width, fakeHash := FakeHash(bytes)), TickCmd)
      else (s, NoCmd)
    case LuckyDone(runErr, lookup) =>
      if runErr.Some? then (s.(done := true, err := runErr), Quit)
      else
        var t := s.(done := true, success := true);
        (if lookup.Some? then t.(hash := lookup.value) else t, Quit)
    case OtherMsg => (s, NoCmd)
  }

  /** The facts every reachable state keeps: the pulse is on the bar, a
      success or an error only follows the end of the run and the two
      exclude each other, and a hash is only recorded on success. */
  predicate LuckyInvariant(s: LuckyState) {
    && 0 <= s.progressPos < Width
    && |s.fakeHash| == 40
    && (s.success ==> s.done && s.err == None)
    && (s.err.Some? ==> s.done && !s.success)
    && (s.hash != "" ==> s.success)
  }

  lemma NewLuckyInvariant(bytes: seq<Byte>)
    requires |bytes| == FakeHashBytes
    ensures LuckyInvariant(NewLucky(bytes))
  {
  }

  /** Update keeps the invariant. The run reports its end once, so a
      LuckyDone message only reaches a model that is not done yet. */
  lemma StepInvariant(s: LuckyState, msg: Msg)
    requires WellFormed(msg) && LuckyInvariant(s)
    requires msg.LuckyDone? ==> !s.done
    ensures LuckyInvariant(Step(s, msg).0)
  {
  }

  /** Once the run has ended the animation stands still: ticks change
      nothing and ask for no further tick. */
  lemma DoneFreezes(s: LuckyState, bytes: seq<Byte>)
    requires |bytes| == FakeHashBytes && s.done
    ensures Step(s, LuckyTick(bytes)) == (s, NoCmd)
  {
  }

  /** While the run goes on, a tick advances the pulse by one cell and
      schedules the next tick. */
  lemma TickAdvances(s: LuckyState, bytes: seq<Byte>)
    requires |bytes| == FakeHashBytes && !s.done && 0 <= s.progressPos < Width
    ensures Step(s, LuckyTick(bytes)).1 == TickCmd
    ensures Step(s, LuckyTick(bytes)).0.progressPos ==
      if s.progressPos == Width - 1 then 0 else s.progressPos + 1
  {
  }

  /** The end of the run always quits; the outcome follows the run's error,
      and the hash is taken only when the run succeeded and the callback
      answered. */
  lemma DoneOutcome(s: LuckyState, runErr: Option<string>, lookup: Option<string>)
    ensures var (t, cmd) := Step(s, LuckyDone(runErr, lookup));
      && cmd == Quit && t.done
      && (t.success <==> runErr.None? || s.success)
      && (runErr.Some? ==> t.err == runErr && t.hash == s.hash)
      && (runErr.None? && lookup.Some? ==> t.hash == lookup.value)
      && (runErr.None? && lookup.None? ==> t.hash == s.hash)
  {
  }

  /** Only ctrl+c reacts among the keys: it cancels and quits. */
  lemma KeyOutcome(s: LuckyState, key: string)
    ensures Step(s, KeyMsg(key)).1 == Quit <==> key == "ctrl+c"
    ensures Step(s, KeyMsg(key)).0.cancelled <==> key == "ctrl+c" || s.cancelled
  {
  }

  /** View, without padding and colours: nothing once the run has ended or
      was cancelled, otherwise the title, the bar with the prefix searched
      for, the current fake hash and the help line. */
  function View(prefix: string, s: LuckyState): (v: string)
    ensures v == [] <==> s.done || s.cancelled
  {
    if s.done || s.cancelled then ""
    else
      ("Lucky Commit" + "\n" + ProgressBar(s.progressPos) + "  Searching: " + prefix + "..."
       + "\n\n" + "Current: " + s.fakeHash + "\n" + "Press Ctrl+C to skip" + "\n")
  }

  /** LuckyResult as RunLuckyCommit builds it. */
  datatype LuckyResult = LuckyResult(cancelled: bool, err: Option<string>, hash: string)

  /** RunLuckyCommit: a failure of the program loop alone is reported;
      otherwise the final model's cancellation, error and hash. */
  function RunResult(programErr: Option<string>, final: LuckyState): (r: LuckyResult)
    ensures programErr.Some? ==> r == LuckyResult(false, programErr, "")
    ensures programErr.None? ==> r.cancelled == final.cancelled && r.err == final.err && r.hash == final.hash
  {
    if programErr.Some? then LuckyResult(false, programErr, "")
    else LuckyResult(final.cancelled, final.err, final.hash)
  }

  /** A reported hash always comes from a successful run. */
  lemma ResultHashOnSuccess(programErr: Option<string>, final: LuckyState)
    requires LuckyInvariant(final)
    ensures RunResult(programErr, final).hash != "" ==> final.success && RunResult(programErr, final).err == None
  {
  }

  /** luckyModel, whose value-receiver Update becomes an update in place. */
  class LuckyModel {
    const prefix: string
    var progressPos: int
    var fakeHash: string
    var done: bool
    var success: bool
    var cancelled: bool
    var err: Option<string>
    var hash: string

    function Snapshot(): LuckyState
      reads this
    {
      LuckyState(progressPos, fakeHash, done, success, cancelled, err, hash)
    }

    /** newLuckyModel, with the first fake hash's random bytes as a parameter. */
    constructor(prefix: string, bytes: seq<Byte>)
      requires |bytes| == FakeHashBytes
      ensures this.prefix == prefix && Snapshot() == NewLucky(bytes)
    {
      this.prefix := prefix;
      progressPos := 0;
      fakeHash := FakeHash(bytes);
      done := false;
      success := false;
      cancelled := false;
      err := None;
      hash := "";
    }

    method Update(msg: Msg) returns (cmd: Cmd)
      requires WellFormed(msg)
      modifies this
      ensures (Snapshot(), cmd) == Step(old(Snapshot()), msg)
    {
      match msg {
        case KeyMsg(key) =>
          if key == "ctrl+c" {
            cancelled := true;
            return Quit;
          }
          return NoCmd;
        case SpinnerTick =>
          return SpinnerCmd;
        case LuckyTick(bytes) =>
          if !done {
            progressPos := (progressPos + 1) % Width;
            fakeHash := FakeHash(bytes);
            return TickCmd;
          }
          return NoCmd;
        case LuckyDone(runErr, lookup) =>
          done := true;
          if runErr.Some? {
            err := runErr;
          } else {
            success := true;
            if lookup.Some? {
              hash := lookup.value;
            }
          }
          return Quit;
        case OtherMsg =>
          return NoCmd;
      }
    }
  }
}
