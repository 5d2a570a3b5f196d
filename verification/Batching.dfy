/** Splitting a transcript into prompts for the notes model: src/twin/notes/summarizer.py. */
module Batching {
  import opened Common
  import G = Greedy

  const MAX_TRANSCRIPT_CHARS: nat := 100000
  const HEADER := "Transcript:\n"

  function Digits(n: nat): string {
    var digit := ['0' + (n % 10) as char];
    if n < 10 then digit else Digits(n / 10) + digit
  }

  /** At least two characters wide, zero-padded. */
  function TwoWide(n: int): string {
    if n < 0 then "-" + Digits(-n) else if n < 10 then "0" + Digits(n) else Digits(n)
  }

  function Stamp(start: int): string {
    var total := start / 1000;
    TwoWide(total / 60) + ":" + TwoWide(total % 60)
  }

  function Line(s: Segment): string {
    var speaker := if s.speaker.Some? then "spk-" + s.speaker.value else "spk-?";
    "[" + Stamp(s.start) + "] (" + speaker + ") " + s.text
  }

  function JoinLines(segments: seq<Segment>): string {
    if segments == [] then ""
    else if |segments| == 1 then Line(segments[0])
    else JoinLines(segments[..|segments| - 1]) + "\n" + Line(segments[|segments| - 1])
  }

  function NotesPrompt(segments: seq<Segment>): string {
    HEADER + JoinLines(segments)
  }

  // ----- what a prompt shows

  /** The number a string of digits stands for. */
  function Value(digits: string): int {
    if digits == "" then 0 else 10 * Value(digits[..|digits| - 1]) + (digits[|digits| - 1] as int - '0' as int)
  }

  predicate AllDigits(text: string) {
    forall i | 0 <= i < |text| :: '0' <= text[i] <= '9'
  }

  lemma ValueAppend(digits: string, c: char)
    requires AllDigits(digits) && '0' <= c <= '9'
    ensures Value(digits + [c]) == 10 * Value(digits) + (c as int - '0' as int) && AllDigits(digits + [c])
  {
    assert (digits + [c])[..|digits|] == digits;
  }

  lemma {:induction false} DigitsRoundTrip(n: nat)
    ensures Value(Digits(n)) == n && AllDigits(Digits(n))
    ensures if n < 10 then |Digits(n)| == 1 else |Digits(n)| >= 2
    ensures n < 100 ==> |Digits(n)| <= 2
  {
    var c := '0' + (n % 10) as char;
    assert c as int == '0' as int + n % 10;
    if n < 10 {
      assert [] + [c] == [c];
      ValueAppend([], c);
    } else {
      DigitsRoundTrip(n / 10);
      ValueAppend(Digits(n / 10), c);
    }
  }

  lemma TwoWideRoundTrip(n: nat)
    ensures Value(TwoWide(n)) == n && AllDigits(TwoWide(n)) && |TwoWide(n)| >= 2 && (n < 100 ==> |TwoWide(n)| == 2)
  {
    DigitsRoundTrip(n);
    if n < 10 {
      var c := Digits(n)[0];
      assert Digits(n) == [] + [c] && "0" == [] + ['0'];
      ValueAppend([], '0');
      ValueAppend([], c);
      ValueAppend("0", c);
    }
  }

  /** A stamp tells the whole seconds of a time: minutes, a colon, and the seconds in two digits. */
  lemma StampRoundTrip(start: nat)
    ensures var stamp, n := Stamp(start), |Stamp(start)|;
            && 5 <= n && stamp[n - 3] == ':' && AllDigits(stamp[..n - 3]) && AllDigits(stamp[n - 2..])
            && Value(stamp[n - 2..]) < 60
            && 60 * Value(stamp[..n - 3]) + Value(stamp[n - 2..]) == start / 1000
  {
    var total := start / 1000;
    TwoWideRoundTrip(total / 60);
    TwoWideRoundTrip(total % 60);
    var minutes, seconds := TwoWide(total / 60), TwoWide(total % 60);
    assert Stamp(start) == minutes + ":" + seconds;
    assert Stamp(start)[..|minutes|] == minutes && Stamp(start)[|minutes| + 1..] == seconds;
  }

  /** A line shows the segment's stamp, its speaker and, to the end, its text. */
  lemma LineShows(s: Segment)
    ensures var line, mark, name := Line(s), Stamp(s.start), if s.speaker.Some? then s.speaker.value else "?";
            var begins, ends := |mark| + 8, |mark| + 8 + |name|;
            && |line| == ends + 2 + |s.text|
            && line[1..|mark| + 1] == mark && line[begins..ends] == name && line[ends + 2..] == s.text
  {
    Pieces(Stamp(s.start), if s.speaker.Some? then s.speaker.value else "?", s.text);
  }

  lemma Pieces(mark: string, name: string, text: string)
    ensures var line := "[" + mark + "] (" + ("spk-" + name) + ") " + text;
            var begins, ends := |mark| + 8, |mark| + 8 + |name|;
            && |line| == ends + 2 + |text|
            && line[1..|mark| + 1] == mark && line[begins..ends] == name && line[ends + 2..] == text
  {
  }

  /** The prompt of a batch has the line of each of its segments. */
  lemma PromptShows(batch: seq<Segment>, i: nat) returns (front: string, back: string)
    requires i < |batch|
    ensures NotesPrompt(batch) == front + Line(batch[i]) + back
  {
    front, back := LinesShow(batch, i);
    Regroup(HEADER, front, Line(batch[i]), back);
    front := HEADER + front;
  }

  lemma Regroup(a: string, b: string, c: string, d: string)
    ensures a + (b + c + d) == (a + b) + c + d && (a + b + c) + d == a + b + (c + d)
  {
  }

  lemma {:induction false} LinesShow(batch: seq<Segment>, i: nat) returns (front: string, back: string)
    requires i < |batch|
    ensures JoinLines(batch) == front + Line(batch[i]) + back
  {
    var n := |batch| - 1;
    if n == 0 {
      front, back := "", "";
      assert "" + Line(batch[i]) + "" == Line(batch[i]);
    } else if i == n {
      front, back := JoinLines(batch[..n]) + "\n", "";
      assert front + Line(batch[i]) + "" == front + Line(batch[i]);
    } else {
      front, back := LinesShow(batch[..n], i);
      Appended(JoinLines(batch[..n]), front, Line(batch[i]), back, Line(batch[n]));
      back := back + ("\n" + Line(batch[n]));
    }
  }

  lemma Appended(lines: string, front: string, line: string, back: string, last: string)
    requires lines == front + line + back
    ensures lines + "\n" + last == front + line + (back + ("\n" + last))
  {
  }

  /** The running size the splitter keeps: the header, and every line with its newline. */
  function LineCost(): G.Budget<Segment> {
    G.Budget((s: Segment) => |Line(s)| + 1, |HEADER|, MAX_TRANSCRIPT_CHARS)
  }

  lemma {:induction false} SizeIsPromptLength(batch: seq<Segment>)
    requires batch != []
    ensures |NotesPrompt(batch)| + 1 == G.Size(LineCost(), batch)
  {
    if |batch| == 1 {
      assert batch[..0] == [];
    } else {
      SizeIsPromptLength(batch[..|batch| - 1]);
    }
  }

  /** A batch the splitter may form: one segment, or several whose prompt stays under the limit. */
  predicate FitsPrompt(batch: seq<Segment>) {
    batch != [] && (|batch| == 1 || |NotesPrompt(batch)| < 100000)
  }

  lemma FitsIsFitsPrompt(batch: seq<Segment>)
    ensures G.Fits(LineCost(), batch) <==> FitsPrompt(batch)
  {
    if batch != [] {
      SizeIsPromptLength(batch);
    }
  }

  ghost predicate Partitions(batches: seq<seq<Segment>>, segments: seq<Segment>) {
    G.Flatten(batches) == segments && forall i | 0 <= i < |batches| :: FitsPrompt(batches[i])
  }

  /** The split is a partition of the transcript into nonempty batches whose prompts stay under the limit unless
      they hold a single segment, and no other such partition has fewer batches. */
  lemma SplitIsOptimal(segments: seq<Segment>, others: seq<seq<Segment>>)
    ensures Partitions(G.SplitFrom(LineCost(), [], segments), segments)
    ensures Partitions(others, segments) ==> |G.SplitFrom(LineCost(), [], segments)| <= |others|
  {
    var g := LineCost();
    forall batch ensures G.Fits(g, batch) <==> FitsPrompt(batch) {
      FitsIsFitsPrompt(batch);
    }
    G.SplitPartitions(g, [], segments);
    assert [] + segments == segments;
    if Partitions(others, segments) {
      G.GreedyIsOptimal(g, segments, others);
    }
  }

  method SplitSegments(segments: seq<Segment>) returns (batches: seq<seq<Segment>>)
    ensures batches == G.SplitFrom(LineCost(), [], segments)
    ensures Partitions(batches, segments)
  {
    batches := G.Split(LineCost(), segments);
    SplitIsOptimal(segments, []);
  }
}
