/** Properties of the whole read_ansi pass and of the reading of a control
    sequence (noansi.c:151-378, 190-221). */
module RunProperties {
  import opened Cells
  import opened Interpreter
  import opened SgrProperties
  import opened TermProperties

  /** Every state the pass reaches is sane: the cursor is on the screen,
      wrapping is still on (so the non-wrapping branch of the glyph case is
      never taken), the rendition has base colours and at most one flag, and
      no written cell carries Unchanged. */
  lemma {:induction false} RunKeepsSane(input: seq<Byte>, i: nat, t: Term, cfg: Config)
    requires i <= |input| && Sane(t)
    ensures Run(input, i, t, cfg).Finished? ==> Sane(Run(input, i, t, cfg).term)
    decreases |input| - i
  {
    if i < |input| {
      if input[i] != ESC {
        if Put(t, input[i], cfg).Some? {
          PutSane(t, input[i], cfg);
          RunKeepsSane(input, i + 1, Put(t, input[i], cfg).value, cfg);
        }
      } else if i + 1 < |input| && input[i + 1] == '[' as int {
        var p := Scan(input, i + 2, CsiStart, cfg);
        if p.Complete? && Perform(t, p.csi, p.final).Ok? {
          PerformSane(t, p.csi, p.final);
          RunKeepsSane(input, p.next, Perform(t, p.csi, p.final).value, cfg);
        }
      }
    }
  }

  /** The pass starts sane on the cleared screen. */
  lemma InitialSane()
    ensures Sane(Initial(Blank()))
  {
  }

  /** A sequence is refused on its 64th byte after `ESC [`: a final byte is
      accepted only among the first 63. */
  lemma {:induction false} ScanLength(input: seq<Byte>, k: nat, s: Csi, cfg: Config)
    requires k <= |input| && Partial(s)
    ensures var r := Scan(input, k, s, cfg);
      r.Complete? ==> s.len + (r.next - k) < MAXSEQLEN
    decreases |input| - k
  {
    if k < |input| {
      var d, len := input[k], s.len + 1;
      if len < MAXSEQLEN && !(d == SUB && !cfg.includeZ) {
        if IsDigit(d) {
          if |s.digits| < 4 {
            ScanLength(input, k + 1, s.(len := len, digits := s.digits + [d]), cfg);
          }
        } else {
          var f := Flush(s.(len := len));
          if d == '?' as int && |f.params| == 0 {
            ScanLength(input, k + 1, f.(ques := true), cfg);
          } else if d == ';' as int {
            ScanLength(input, k + 1, f.(semis := f.semis + 1), cfg);
          }
        }
      }
    }
  }

  /** The end of the input is reached inside a sequence only while it is
      shorter than 64 bytes: given enough bytes, a sequence always ends,
      breaks off or is refused. */
  lemma {:induction false} ScanBounded(input: seq<Byte>, k: nat, s: Csi, cfg: Config)
    requires k <= |input| && Partial(s)
    ensures Scan(input, k, s, cfg).Unterminated? ==> s.len + (|input| - k) < MAXSEQLEN
    decreases |input| - k
  {
    if k < |input| {
      match Step(s, input[k], cfg)
      case Next(s') => ScanBounded(input, k + 1, s', cfg);
      case Halt(_) =>
      case Final(_, _) =>
    }
  }

  /** Conversely, 63 bytes that neither end the sequence nor are refused
      make the next byte, whatever it is, an error: here `;` and, before any
      parameter, `?`. */
  lemma {:induction false} SemicolonsTooLong(input: seq<Byte>, k: nat, s: Csi, cfg: Config)
    requires Partial(s) && s.digits == []
    requires k + (MAXSEQLEN - s.len) <= |input|
    requires forall m :: k <= m < k + (MAXSEQLEN - s.len) - 1 ==>
      input[m] == ';' as int || (input[m] == '?' as int && s.params == [])
    ensures Scan(input, k, s, cfg) == Malformed(SequenceTooLong)
    decreases MAXSEQLEN - s.len
  {
    if s.len + 1 < MAXSEQLEN {
      var f := Flush(s.(len := s.len + 1));
      assert f == s.(len := s.len + 1);
      if input[k] == ';' as int {
        SemicolonsTooLong(input, k + 1, f.(semis := f.semis + 1), cfg);
      } else {
        SemicolonsTooLong(input, k + 1, f.(ques := true), cfg);
      }
    }
  }

  /** A `?` is accepted only before any parameter, digits included; after
      one it is an error. */
  lemma QuestionMark(input: seq<Byte>, k: nat, s: Csi, cfg: Config)
    requires k < |input| && input[k] == '?' as int && Partial(s) && s.len + 1 < MAXSEQLEN
    ensures |s.params| == 0 && |s.digits| == 0 ==> Partial(s.(len := s.len + 1, ques := true))
    ensures Scan(input, k, s, cfg) ==
      if |s.params| > 0 || |s.digits| > 0 then Malformed(QuestionAfterParameter)
      else Scan(input, k + 1, s.(len := s.len + 1, ques := true), cfg)
  {
    var f := Flush(s.(len := s.len + 1));
    if |s.digits| > 0 && |s.params| < 3 {
      assert |f.params| == |s.params| + 1;
    }
  }

  /** 0x1A inside a sequence breaks it off unless -z is given; with -z it is
      taken as the final byte (which no command has). */
  lemma SubInSequence(input: seq<Byte>, k: nat, s: Csi, cfg: Config)
    requires k < |input| && input[k] == SUB && Partial(s) && s.len + 1 < MAXSEQLEN
    ensures Scan(input, k, s, cfg) ==
      if cfg.includeZ then Complete(Flush(s.(len := s.len + 1)), SUB, k + 1) else Interrupted
  {
  }

  /** One more digit of a parameter, with room left in nbuf. */
  lemma DigitStep(input: seq<Byte>, k: nat, s: Csi, cfg: Config) returns (s': Csi)
    requires k < |input| && Partial(s) && s.len + 1 < MAXSEQLEN
    requires IsDigit(input[k]) && |s.digits| < 4
    ensures s' == s.(len := s.len + 1, digits := s.digits + [input[k]]) && Partial(s')
    ensures Scan(input, k, s, cfg) == Scan(input, k + 1, s', cfg)
  {
    s' := s.(len := s.len + 1, digits := s.digits + [input[k]]);
  }

  /** A one-digit number is worth its digit. */
  lemma DecimalOne(d: Byte)
    requires IsDigit(d)
    ensures Decimal([d]) == d - '0' as int
  {
  }

  /** A `;` after a one-digit number, with a parameter slot free, moves the
      number into that slot. */
  lemma SemicolonFlushes(input: seq<Byte>, k: nat, s: Csi, cfg: Config)
    requires k < |input| && input[k] == ';' as int
    requires Partial(s) && s.len + 1 < MAXSEQLEN && |s.digits| == 1 && |s.params| < 3
    ensures Partial(Csi(s.len + 1, [], s.params + [s.digits[0] - '0' as int], s.ques, s.semis + 1))
    ensures Scan(input, k, s, cfg) == Scan(input, k + 1, Csi(s.len + 1, [], s.params + [s.digits[0] - '0' as int], s.ques, s.semis + 1), cfg)
  {
    assert s.digits == [s.digits[0]];
    DecimalOne(s.digits[0]);
  }

  /** A one-digit number and a `;`, with a parameter slot free: the number
      goes into the next slot. */
  lemma SlotStep(input: seq<Byte>, k: nat, s: Csi, cfg: Config)
    requires k + 1 < |input| && Partial(s) && s.len + 2 < MAXSEQLEN
    requires s.digits == [] && |s.params| < 3
    requires IsDigit(input[k]) && input[k + 1] == ';' as int
    ensures Partial(Csi(s.len + 2, [], s.params + [input[k] - '0' as int], s.ques, s.semis + 1))
    ensures Scan(input, k, s, cfg) ==
      Scan(input, k + 2, Csi(s.len + 2, [], s.params + [input[k] - '0' as int], s.ques, s.semis + 1), cfg)
  {
    var s1 := DigitStep(input, k, s, cfg);
    var s2 := Csi(s.len + 2, [], s.params + [input[k] - '0' as int], s.ques, s.semis + 1);
    assert Csi(s1.len + 1, [], s1.params + [s1.digits[0] - '0' as int], s1.ques, s1.semis + 1) == s2;
    SemicolonFlushes(input, k + 1, s1, cfg);
    assert Scan(input, k + 1, s1, cfg) == Scan(input, k + 2, s2, cfg);
  }

  /** A one-digit number and a `;` with all three slots taken: the digit
      stays in nbuf. */
  lemma KeepStep(input: seq<Byte>, k: nat, s: Csi, cfg: Config)
    requires k + 1 < |input| && Partial(s) && s.len + 2 < MAXSEQLEN
    requires |s.digits| < 4 && |s.params| == 3
    requires IsDigit(input[k]) && input[k + 1] == ';' as int
    ensures Partial(Csi(s.len + 2, s.digits + [input[k]], s.params, s.ques, s.semis + 1))
    ensures Scan(input, k, s, cfg) ==
      Scan(input, k + 2, Csi(s.len + 2, s.digits + [input[k]], s.params, s.ques, s.semis + 1), cfg)
  {
    var s1 := DigitStep(input, k, s, cfg);
  }

  /** A digit with nbuf full. */
  lemma OverflowStep(input: seq<Byte>, k: nat, s: Csi, cfg: Config)
    requires k < |input| && Partial(s) && s.len + 1 < MAXSEQLEN
    requires |s.digits| == 4 && IsDigit(input[k])
    ensures Scan(input, k, s, cfg) == Malformed(NumberTooLarge)
  {
  }

  /** A final byte ends the sequence; a pending number is stored first. */
  lemma FinalStep(input: seq<Byte>, k: nat, s: Csi, cfg: Config)
    requires k < |input| && Partial(s) && s.len + 1 < MAXSEQLEN
    requires !IsDigit(input[k]) && input[k] != '?' as int && input[k] != ';' as int && input[k] != SUB
    ensures Scan(input, k, s, cfg) == Complete(Flush(s.(len := s.len + 1)), input[k], k + 1)
    ensures s.digits == [] ==> Flush(s.(len := s.len + 1)) == s.(len := s.len + 1)
  {
  }

  /** A complete sequence whose command succeeds hands the rest of the input
      to the next pass with the updated locals. */
  lemma SequenceStep(input: seq<Byte>, i: nat, t: Term, cfg: Config, s: Csi, final: Byte, next: nat, t': Term)
    requires i + 1 < |input| && t.Valid() && input[i] == ESC && input[i + 1] == '[' as int
    requires Scan(input, i + 2, CsiStart, cfg) == Complete(s, final, next)
    requires Perform(t, s, final) == Ok(t')
    ensures next <= |input| && t'.Valid() && Run(input, i, t, cfg) == Run(input, next, t', cfg)
  {
  }

  /** `ESC [ d ; H` is read as the single parameter d after one `;`. */
  lemma ColumnOnlyScan(input: seq<Byte>, cfg: Config)
    requires |input| == 5 && IsDigit(input[2]) && input[3] == ';' as int && input[4] == 'H' as int
    ensures Scan(input, 2, CsiStart, cfg) == Complete(Csi(3, [], [input[2] - '0' as int], false, 1), 'H' as int, 5)
  {
    var s := Csi(2, [], [input[2] - '0' as int], false, 1);
    assert Csi(2, [], CsiStart.params + [input[2] - '0' as int], false, 1) == s;
    SlotStep(input, 2, CsiStart, cfg);
    FinalStep(input, 4, s, cfg);
  }

  /** `ESC [ d ; H` with a digit d puts the cursor in column d of the first
      row (index d - 1, and 0 for d = 0): one parameter after a `;` is the
      column. */
  lemma ColumnOnly(input: seq<Byte>, t: Term, cfg: Config)
    requires t.Valid()
    requires |input| == 5 && input[0] == ESC && input[1] == '[' as int
    requires IsDigit(input[2]) && input[3] == ';' as int && input[4] == 'H' as int
    ensures Run(input, 0, t, cfg) == Finished(t.(row := 0, col := if input[2] == '0' as int then 0 else input[2] - '1' as int))
  {
    var s := Csi(3, [], [input[2] - '0' as int], false, 1);
    ColumnOnlyScan(input, cfg);
    var t' := t.(row := 0, col := if input[2] == '0' as int then 0 else input[2] - '1' as int);
    assert Perform(t, s, 'H' as int) == Ok(t');
    SequenceStep(input, 0, t, cfg, s, 'H' as int, 5, t');
    assert Run(input, 5, t', cfg) == Finished(t');
  }

  /** ESC at the very end of the input is an error, and so is ESC followed by
      anything but `[`, wherever it stands. */
  lemma BareEscape(input: seq<Byte>, i: nat, t: Term, cfg: Config)
    requires t.Valid() && i < |input| && input[i] == ESC
    ensures i + 1 == |input| ==> Run(input, i, t, cfg) == Aborted(EofAfterEsc)
    ensures i + 1 < |input| && input[i + 1] != '[' as int ==> Run(input, i, t, cfg) == Aborted(NotCsi(input[i + 1]))
  {
  }

  /** A sequence that is refused while it is read, or whose command is
      refused, aborts the pass with that error. */
  lemma SequenceAborts(input: seq<Byte>, i: nat, t: Term, cfg: Config)
    requires t.Valid() && i + 1 < |input| && input[i] == ESC && input[i + 1] == '[' as int
    ensures var r := Scan(input, i + 2, CsiStart, cfg);
      r.Malformed? ==> Run(input, i, t, cfg) == Aborted(r.error)
    ensures var r := Scan(input, i + 2, CsiStart, cfg);
      r.Complete? && Perform(t, r.csi, r.final).Err? ==>
        Run(input, i, t, cfg) == Aborted(Perform(t, r.csi, r.final).error)
  {
  }

  /** A sequence read up to an ESC at j, with no 0x1A before it (or with
      -z), is refused or ends on a final byte at j or earlier: the ESC is a
      final byte itself. */
  lemma {:induction false} ScanStopsAt(input: seq<Byte>, k: nat, s: Csi, cfg: Config, j: nat)
    requires k <= j < |input| && input[j] == ESC && Partial(s)
    requires forall m :: k <= m < j ==> input[m] != SUB || cfg.includeZ
    ensures var r := Scan(input, k, s, cfg);
      r.Malformed? || (r.Complete? && r.next <= j + 1 && r.final == input[r.next - 1])
    decreases j - k
  {
    match Step(s, input[k], cfg)
    case Next(s') =>
      if k < j {
        ScanStopsAt(input, k + 1, s', cfg, j);
      }
    case Halt(_) =>
    case Final(_, _) =>
  }

  /** `CSI u` with the saved slot empty aborts the pass with "CSI u before
      a CSI s". */
  lemma RestoreReached(input: seq<Byte>, j: nat, t: Term, cfg: Config)
    requires t.Valid() && (t.savedRow == 255 || t.savedCol == 255)
    requires j + 2 < |input| && input[j] == ESC && input[j + 1] == '[' as int && input[j + 2] == 'u' as int
    ensures Run(input, j, t, cfg) == Aborted(RestoreBeforeSave)
  {
    FinalStep(input, j + 2, CsiStart, cfg);
    RestoreFirst(t, Csi(1, [], [], false, 0));
  }

  /** A sequence that starts before an ESC at j, with no `s` and no 0x1A
      (or with -z) up to j, either aborts the pass or hands it on at j or
      earlier with the saved slot as it was. */
  lemma SequenceBeforeRestore(input: seq<Byte>, i: nat, j: nat, t: Term, cfg: Config) returns (n: nat, t': Term)
    requires t.Valid() && i + 1 < j < |input| && input[i] == ESC && input[i + 1] == '[' as int && input[j] == ESC
    requires forall k :: i <= k < j ==> input[k] != 's' as int && (input[k] != SUB || cfg.includeZ)
    ensures Run(input, i, t, cfg).Aborted? ||
      (i < n <= j && t'.Valid() && t'.savedRow == t.savedRow && t'.savedCol == t.savedCol &&
       Run(input, i, t, cfg) == Run(input, n, t', cfg))
  {
    ScanStopsAt(input, i + 2, CsiStart, cfg, j);
    n, t' := j, t;
    match Scan(input, i + 2, CsiStart, cfg)
    case Malformed(_) =>
    case Complete(c, f, next) =>
      OnlySaveSaves(t, 0, cfg, c, f);
      if next <= j && Perform(t, c, f).Ok? {
        n, t' := next, Perform(t, c, f).value;
      }
  }

  /** `CSI u` after any bytes that hold no `s` and no 0x1A (or with -z),
      from a state whose saved slot is empty, aborts the pass: no command
      before it can fill the slot, and the `u` itself, when it is reached,
      is refused. */
  lemma {:induction false} RestoreBeforeAnySave(input: seq<Byte>, i: nat, j: nat, t: Term, cfg: Config)
    requires t.Valid() && (t.savedRow == 255 || t.savedCol == 255)
    requires i <= j && j + 2 < |input| && input[j] == ESC && input[j + 1] == '[' as int && input[j + 2] == 'u' as int
    requires forall k :: i <= k < j ==> input[k] != 's' as int && (input[k] != SUB || cfg.includeZ)
    ensures Run(input, i, t, cfg).Aborted?
    decreases j - i
  {
    if i == j {
      RestoreReached(input, j, t, cfg);
    } else if input[i] != ESC {
      OnlySaveSaves(t, input[i], cfg, CsiStart, 'm' as int);
      RestoreBeforeAnySave(input, i + 1, j, Put(t, input[i], cfg).value, cfg);
    } else if input[i + 1] == '[' as int && i + 1 < j {
      var n, t' := SequenceBeforeRestore(input, i, j, t, cfg);
      if !Run(input, i, t, cfg).Aborted? {
        RestoreBeforeAnySave(input, n, j, t', cfg);
      }
    }
  }

  /** Digits that run on until nbuf holds four make the next digit an
      error: no number can have five digits, not even 00001. */
  lemma {:induction false} LongNumber(input: seq<Byte>, k: nat, s: Csi, cfg: Config)
    requires Partial(s) && s.len + (4 - |s.digits|) + 1 < MAXSEQLEN
    requires k + (4 - |s.digits|) < |input|
    requires forall j :: k <= j <= k + (4 - |s.digits|) ==> IsDigit(input[j])
    ensures Scan(input, k, s, cfg) == Malformed(NumberTooLarge)
    decreases 4 - |s.digits|
  {
    if |s.digits| == 4 {
      OverflowStep(input, k, s, cfg);
    } else {
      var s' := DigitStep(input, k, s, cfg);
      LongNumber(input, k + 1, s', cfg);
    }
  }

  /** Five digits in a row are one too many for nbuf. */
  lemma FiveDigits(t: Term, cfg: Config)
    requires t.Valid()
    ensures Run([ESC, '[' as int, '1' as int, '2' as int, '3' as int, '4' as int, '5' as int, 'm' as int], 0, t, cfg)
      == Aborted(NumberTooLarge)
  {
    var input := [ESC, '[' as int, '1' as int, '2' as int, '3' as int, '4' as int, '5' as int, 'm' as int];
    LongNumber(input, 2, CsiStart, cfg);
  }

  /** `ESC [ 1;2;3;4;5;6;7;8 m`: eight parameters for three slots. */
  const PileUp: seq<Byte> :=
    [ESC, '[' as int, '1' as int, ';' as int, '2' as int, ';' as int, '3' as int, ';' as int,
     '4' as int, ';' as int, '5' as int, ';' as int, '6' as int, ';' as int, '7' as int, ';' as int,
     '8' as int, 'm' as int]

  /** From index k on, the input holds n one-digit numbers, each followed
      by a `;`. */
  predicate DigitPairs(input: seq<Byte>, k: nat, n: nat)
    decreases n
  {
    n == 0 || (k + 1 < |input| && IsDigit(input[k]) && input[k + 1] == ';' as int && DigitPairs(input, k + 2, n - 1))
  }

  /** Once the three slots are taken, a one-digit number and a `;` leave the
      digit in nbuf, so that nbuf fills up with digits of different numbers
      and the next digit overflows it. */
  lemma {:induction false} DigitsAccumulate(input: seq<Byte>, k: nat, s: Csi, cfg: Config)
    requires Partial(s) && |s.params| == 3
    requires s.len + 2 * (4 - |s.digits|) + 1 < MAXSEQLEN
    requires DigitPairs(input, k, 4 - |s.digits|)
    requires k + 2 * (4 - |s.digits|) < |input| && IsDigit(input[k + 2 * (4 - |s.digits|)])
    ensures Scan(input, k, s, cfg) == Malformed(NumberTooLarge)
    decreases 4 - |s.digits|
  {
    if |s.digits| == 4 {
      OverflowStep(input, k, s, cfg);
    } else {
      KeepStep(input, k, s, cfg);
      DigitsAccumulate(input, k + 2, Csi(s.len + 2, s.digits + [input[k]], s.params, s.ques, s.semis + 1), cfg);
    }
  }

  /** One-digit numbers, each followed by a `;`, fill free parameter slots
      one by one. */
  lemma {:induction false} SlotsFill(input: seq<Byte>, k: nat, s: Csi, cfg: Config, n: nat) returns (s': Csi)
    requires Partial(s) && s.digits == [] && |s.params| + n <= 3 && s.len + 2 * n < MAXSEQLEN
    requires DigitPairs(input, k, n) && k + 2 * n <= |input|
    ensures Partial(s') && s'.digits == [] && |s'.params| == |s.params| + n
    ensures s'.len == s.len + 2 * n && s'.ques == s.ques && s'.semis == s.semis + n
    ensures Scan(input, k, s, cfg) == Scan(input, k + 2 * n, s', cfg)
    decreases n
  {
    if n == 0 {
      s' := s;
    } else {
      SlotStep(input, k, s, cfg);
      s' := SlotsFill(input, k + 2, Csi(s.len + 2, [], s.params + [input[k] - '0' as int], s.ques, s.semis + 1), cfg, n - 1);
    }
  }

  /** PileUp holds three numbers with their `;` for the slots, and four more
      that nbuf takes before the last digit. */
  lemma PileUpPairs()
    ensures DigitPairs(PileUp, 2, 3) && DigitPairs(PileUp, 8, 4)
  {
    assert DigitPairs(PileUp, 6, 1) && DigitPairs(PileUp, 4, 2);
    assert DigitPairs(PileUp, 14, 1) && DigitPairs(PileUp, 12, 2) && DigitPairs(PileUp, 10, 3);
  }

  /** The sequence of PileUp is malformed. */
  lemma PileUpScan(cfg: Config)
    ensures Scan(PileUp, 2, CsiStart, cfg) == Malformed(NumberTooLarge)
  {
    PileUpPairs();
    var s := SlotsFill(PileUp, 2, CsiStart, cfg, 3);
    DigitsAccumulate(PileUp, 8, s, cfg);
  }

  /** So `ESC [ 1;2;3;4;5;6;7;8 m` aborts, although no single number in it
      is longer than one digit. */
  lemma DigitsPileUp(t: Term, cfg: Config)
    requires t.Valid()
    ensures Run(PileUp, 0, t, cfg) == Aborted(NumberTooLarge)
  {
    PileUpScan(cfg);
  }

  /** The end of the input inside a sequence ends the pass without error,
      and so does 0x1A inside one unless -z is given: the state is the one
      before the `ESC`. */
  lemma CutShort(input: seq<Byte>, i: nat, t: Term, cfg: Config)
    requires t.Valid() && i + 1 < |input| && input[i] == ESC && input[i + 1] == '[' as int
    ensures Scan(input, i + 2, CsiStart, cfg).Unterminated? ==> Run(input, i, t, cfg) == Finished(t)
    ensures Scan(input, i + 2, CsiStart, cfg).Interrupted? ==> Run(input, i, t, cfg) == Finished(t)
  {
  }

  /** Outside a sequence, 0x1A ends the pass without error unless -z is
      given; with -z it is written like any glyph. */
  lemma SubEnds(input: seq<Byte>, i: nat, t: Term, cfg: Config)
    requires t.Valid() && i < |input| && input[i] == SUB
    ensures !cfg.includeZ ==> Run(input, i, t, cfg) == Finished(t)
    ensures cfg.includeZ ==> Put(t, SUB, cfg).Some?
    ensures cfg.includeZ ==>
      Put(t, SUB, cfg).value.grid == Write(t.grid, t.row, t.col, Cell(SUB, t.rend.fg, t.rend.bg, t.rend.flags)) &&
      Run(input, i, t, cfg) == Run(input, i + 1, Put(t, SUB, cfg).value, cfg)
  {
  }
}
