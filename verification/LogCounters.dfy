// internal/adapter/ds4/ds4.go and internal/adapter/tensorfold/reqlog.go: counters kept from a log.
module LogCounters {
  import opened Text

  const TWO_64: nat := 0x1_0000_0000_0000_0000

  // ---- ds4: one timing line ----------------------------------------------------

  datatype Cycle = Cycle(proposed: nat, accepted: nat)

  function Strip(s: string, prefix: string): Option<string> {
    if HasPrefix(s, prefix) then Some(s[|prefix|..]) else None
  }

  // The longest front of s made of such characters.
  function Front(s: string, like: char -> bool): (n: nat)
    ensures n <= |s|
  {
    if s == "" || !like(s[0]) then 0 else 1 + Front(s[1..], like)
  }

  predicate IsWord(c: char) {
    IsDigit(c) || 'a' <= c <= 'z' || 'A' <= c <= 'Z' || c == '_'
  }

  predicate IsWordOrDash(c: char) {
    IsWord(c) || c == '-'
  }

  lemma {:induction false} FrontOfAll(s: string, rest: string, like: char -> bool)
    requires forall k :: 0 <= k < |s| ==> like(s[k])
    requires rest == "" || !like(rest[0])
    ensures Front(s + rest, like) == |s|
  {
    if s == "" {
      assert s + rest == rest;
    } else {
      assert (s + rest)[1..] == s[1..] + rest;
      FrontOfAll(s[1..], rest, like);
    }
  }

  lemma {:induction false} FrontDigits(s: string)
    ensures AllDigits(s[..Front(s, IsDigit)])
  {
    if s != "" && IsDigit(s[0]) {
      FrontDigits(s[1..]);
      assert s[..Front(s, IsDigit)] == [s[0]] + s[1..][..Front(s[1..], IsDigit)];
    }
  }

  // num: strconv.ParseUint saturates, and its error is ignored.
  function Num(digits: string): nat
    requires AllDigits(digits)
  {
    var n := Number(digits);
    if n < TWO_64 then n else TWO_64 - 1
  }

  function Dec(v: nat): nat {
    if v == 0 then 0 else v - 1
  }

  // A literal, a run of digits as a number, and what follows.
  function Numeral(s: string, literal: string): Option<(nat, string)> {
    match Strip(s, literal)
    case None => None
    case Some(t) =>
      var n := Front(t, IsDigit);
      FrontDigits(t);
      if n == 0 then None else Some((Num(t[..n]), t[n..]))
  }

  // qwenRE: the third number is only compared for a warning.
  function ParseQwen(line: string): Option<Cycle> {
    match Numeral(line, "ds4: Qwen MTP timing drafted=")
    case None => None
    case Some((drafted, s)) =>
      match Numeral(s, " accepted=")
      case None => None
      case Some((accepted, t)) =>
        if Numeral(t, " target_tokens=").None? then None else Some(Cycle(drafted, accepted))
  }

  // What follows the mode of a line of the other paths.
  function AfterMode(s: string): Option<(nat, nat, string)> {
    match Numeral(s, " drafted=")
    case None => None
    case Some((drafted, t)) =>
      match Numeral(t, " committed=")
      case None => None
      case Some((committed, rest)) => Some((drafted, committed, rest))
  }

  // cycleRE: both numbers include the free first token, and the second must end a word.
  function ParseMode(s: string): Option<Cycle> {
    var n := Front(s, IsWordOrDash);
    if n == 0 then None
    else match AfterMode(s[n..])
      case None => None
      case Some((drafted, committed, rest)) =>
        if rest != "" && IsWord(rest[0]) then None else Some(Cycle(Dec(drafted), Dec(committed)))
  }

  function ParseCycle(line: string): Option<Cycle> {
    match Strip(line, "ds4: mtp timing ")
    case None => None
    case Some(s) => ParseMode(s)
  }

  function ParseLine(line: string): Option<Cycle> {
    var qwen := ParseQwen(line);
    if qwen.Some? then qwen else ParseCycle(line)
  }

  lemma PrefixAt(s: string, prefix: string, k: nat)
    requires HasPrefix(s, prefix) && k < |prefix|
    ensures s[k] == prefix[k]
  {
    assert s[k] == s[..|prefix|][k];
  }

  lemma OtherPathIsNotQwen(line: string)
    requires HasPrefix(line, "ds4: mtp timing ")
    ensures ParseQwen(line) == None
  {
    var ours, theirs := "ds4: mtp timing ", "ds4: Qwen MTP timing drafted=";
    assert line[5] == line[..|ours|][5] == ours[5] == 'm';
    if HasPrefix(line, theirs) {
      PrefixAt(line, theirs, 5);
      assert false;
    }
  }

  // The two expressions the lines are matched against, each group a run of its characters.
  predicate Digits(s: string) {
    s != "" && AllDigits(s)
  }

  predicate Mode(s: string) {
    s != "" && forall k :: 0 <= k < |s| ==> IsDigit(s[k]) || 'a' <= s[k] <= 'z' || 'A' <= s[k] <= 'Z' || s[k] in "_-"
  }

  predicate EndsWord(rest: string) {
    rest == "" || !(IsDigit(rest[0]) || 'a' <= rest[0] <= 'z' || 'A' <= rest[0] <= 'Z' || rest[0] == '_')
  }

  ghost predicate QwenLine(line: string, drafted: string, accepted: string, target: string, rest: string) {
    && Digits(drafted) && Digits(accepted) && Digits(target)
    && line == "ds4: Qwen MTP timing drafted=" + drafted + (" accepted=" + accepted
               + (" target_tokens=" + target + rest))
  }

  ghost predicate CycleLine(line: string, mode: string, drafted: string, committed: string, rest: string) {
    && Mode(mode) && Digits(drafted) && Digits(committed) && EndsWord(rest)
    && line == "ds4: mtp timing " + (mode + (" drafted=" + drafted + (" committed=" + committed + rest)))
  }

  lemma {:induction false} FrontIsLongest(s: string, like: char -> bool)
    ensures var n := Front(s, like);
      (forall k :: 0 <= k < n ==> like(s[k])) && (n < |s| ==> !like(s[n]))
  {
    if s != "" && like(s[0]) {
      FrontIsLongest(s[1..], like);
      assert forall k :: 0 < k < |s| ==> s[k] == s[1..][k - 1];
    }
  }

  ghost predicate NumeralOf(s: string, literal: string, digits: string, rest: string) {
    Digits(digits) && s == literal + digits + rest && (rest == "" || !IsDigit(rest[0]))
  }

  lemma NumeralFinds(s: string, literal: string) returns (digits: string)
    requires Numeral(s, literal).Some?
    ensures NumeralOf(s, literal, digits, Numeral(s, literal).value.1)
    ensures Numeral(s, literal).value.0 == Num(digits)
  {
    var t := s[|literal|..];
    var n := Front(t, IsDigit);
    FrontDigits(t);
    FrontIsLongest(t, IsDigit);
    digits := t[..n];
    assert s == literal + t && t == digits + t[n..];
  }

  lemma NumeralFound(s: string, literal: string, digits: string, rest: string)
    requires NumeralOf(s, literal, digits, rest)
    ensures Numeral(s, literal) == Some((Num(digits), rest))
  {
    assert s == literal + (digits + rest) && s[|literal|..] == digits + rest;
    FrontOfAll(digits, rest, IsDigit);
    assert (digits + rest)[..|digits|] == digits && (digits + rest)[|digits|..] == rest;
  }

  lemma NumeralStarts(s: string, literal: string, digits: string, rest: string)
    requires Digits(digits) && s == literal + digits + rest
    ensures Numeral(s, literal).Some?
  {
    assert s == literal + (digits + rest) && s[|literal|..] == digits + rest;
    assert (digits + rest)[0] == digits[0];
  }

  lemma QwenFinds(line: string) returns (drafted: string, accepted: string, target: string, rest: string)
    requires ParseQwen(line).Some?
    ensures QwenLine(line, drafted, accepted, target, rest)
    ensures ParseQwen(line) == Some(Cycle(Num(drafted), Num(accepted)))
  {
    drafted := NumeralFinds(line, "ds4: Qwen MTP timing drafted=");
    var s := Numeral(line, "ds4: Qwen MTP timing drafted=").value.1;
    accepted := NumeralFinds(s, " accepted=");
    var t := Numeral(s, " accepted=").value.1;
    target := NumeralFinds(t, " target_tokens=");
    rest := Numeral(t, " target_tokens=").value.1;
  }

  lemma QwenFound(line: string, drafted: string, accepted: string, target: string, rest: string)
    requires QwenLine(line, drafted, accepted, target, rest)
    ensures ParseQwen(line) == Some(Cycle(Num(drafted), Num(accepted)))
  {
    var t := " target_tokens=" + target + rest;
    var s := " accepted=" + accepted + t;
    assert s[0] == ' ' && t[0] == ' ';
    NumeralFound(line, "ds4: Qwen MTP timing drafted=", drafted, s);
    NumeralFound(s, " accepted=", accepted, t);
    NumeralStarts(t, " target_tokens=", target, rest);
  }

  lemma FrontIsMode(s: string)
    ensures Front(s, IsWordOrDash) > 0 ==> Mode(s[..Front(s, IsWordOrDash)])
  {
    FrontIsLongest(s, IsWordOrDash);
    var mode := s[..Front(s, IsWordOrDash)];
    forall k | 0 <= k < |mode| ensures IsWordOrDash(mode[k]) {
      assert mode[k] == s[k];
    }
  }

  lemma ModeFinds(s: string) returns (mode: string, after: string)
    requires ParseMode(s).Some?
    ensures Mode(mode) && s == mode + after && AfterMode(after).Some? && EndsWord(AfterMode(after).value.2)
    ensures ParseMode(s) == Some(Cycle(Dec(AfterMode(after).value.0), Dec(AfterMode(after).value.1)))
  {
    var n := Front(s, IsWordOrDash);
    FrontIsMode(s);
    mode, after := s[..n], s[n..];
  }

  lemma ModeFound(mode: string, rest: string)
    requires Mode(mode) && rest != "" && !IsWordOrDash(rest[0])
    ensures Front(mode + rest, IsWordOrDash) == |mode| && (mode + rest)[|mode|..] == rest
  {
    forall k | 0 <= k < |mode| ensures IsWordOrDash(mode[k]) {
    }
    FrontOfAll(mode, rest, IsWordOrDash);
  }

  lemma StripSplits(line: string, prefix: string)
    ensures Strip(line, prefix).Some? ==> line == prefix + Strip(line, prefix).value
  {
  }

  lemma StripFinds(prefix: string, s: string)
    ensures Strip(prefix + s, prefix) == Some(s)
  {
  }

  lemma AfterModeFinds(s: string) returns (drafted: string, committed: string)
    requires AfterMode(s).Some?
    ensures Digits(drafted) && Digits(committed)
    ensures AfterMode(s).value.0 == Num(drafted) && AfterMode(s).value.1 == Num(committed)
    ensures s == " drafted=" + drafted + (" committed=" + committed + AfterMode(s).value.2)
  {
    drafted := NumeralFinds(s, " drafted=");
    committed := NumeralFinds(Numeral(s, " drafted=").value.1, " committed=");
  }

  lemma CycleFinds(line: string) returns (mode: string, drafted: string, committed: string, rest: string)
    requires ParseCycle(line).Some?
    ensures CycleLine(line, mode, drafted, committed, rest)
    ensures ParseCycle(line) == Some(Cycle(Dec(Num(drafted)), Dec(Num(committed))))
  {
    StripSplits(line, "ds4: mtp timing ");
    var after;
    mode, after := ModeFinds(Strip(line, "ds4: mtp timing ").value);
    drafted, committed := AfterModeFinds(after);
    rest := AfterMode(after).value.2;
  }

  lemma AfterModeFound(drafted: string, committed: string, rest: string)
    requires Digits(drafted) && Digits(committed) && EndsWord(rest)
    ensures AfterMode(" drafted=" + drafted + (" committed=" + committed + rest))
         == Some((Num(drafted), Num(committed), rest))
  {
    var t := " committed=" + committed + rest;
    assert t[0] == ' ';
    NumeralFound(" drafted=" + drafted + t, " drafted=", drafted, t);
    NumeralFound(t, " committed=", committed, rest);
  }

  lemma CycleFound(line: string, mode: string, drafted: string, committed: string, rest: string)
    requires CycleLine(line, mode, drafted, committed, rest)
    ensures ParseCycle(line) == Some(Cycle(Dec(Num(drafted)), Dec(Num(committed))))
  {
    var after := " drafted=" + drafted + (" committed=" + committed + rest);
    assert after[0] == ' ';
    AfterModeFound(drafted, committed, rest);
    ModeFound(mode, after);
    StripFinds("ds4: mtp timing ", mode + after);
  }

  // A line is counted exactly if it matches one of the two expressions, and then by their numbers.
  lemma ParsesExactly(line: string, c: Cycle)
    ensures ParseLine(line) == Some(c) <==>
      || (exists drafted, accepted, target, rest ::
            QwenLine(line, drafted, accepted, target, rest) && c == Cycle(Num(drafted), Num(accepted)))
      || (exists mode, drafted, committed, rest ::
            CycleLine(line, mode, drafted, committed, rest) && c == Cycle(Dec(Num(drafted)), Dec(Num(committed))))
  {
    if ParseQwen(line).Some? {
      var d, a, t, r := QwenFinds(line);
    }
    if ParseCycle(line).Some? {
      var m, d, a, r := CycleFinds(line);
    }
    if d, a, t, r :| QwenLine(line, d, a, t, r) && c == Cycle(Num(d), Num(a)) {
      QwenFound(line, d, a, t, r);
    }
    if m, d, a, r :| CycleLine(line, m, d, a, r) && c == Cycle(Dec(Num(d)), Dec(Num(a))) {
      CycleFound(line, m, d, a, r);
      CyclePrefix(line, m, d, a, r);
      OtherPathIsNotQwen(line);
    }
  }

  lemma CyclePrefix(line: string, mode: string, drafted: string, committed: string, rest: string)
    requires CycleLine(line, mode, drafted, committed, rest)
    ensures HasPrefix(line, "ds4: mtp timing ")
  {
    assert line[..|"ds4: mtp timing "|] == "ds4: mtp timing ";
  }

  lemma DecimalNum(n: nat)
    requires n < TWO_64
    ensures Digits(Decimal(n)) && Num(Decimal(n)) == n
  {
    DecimalNumber(n);
  }

  // Every line the Qwen path prints reads back as the cycle it reports.
  lemma QwenReadsBack(drafted: nat, accepted: nat, target: nat, rest: string)
    requires drafted < TWO_64 && accepted < TWO_64 && target < TWO_64
    ensures ParseLine("ds4: Qwen MTP timing drafted=" + Decimal(drafted) + (" accepted=" + Decimal(accepted)
                      + (" target_tokens=" + Decimal(target) + rest))) == Some(Cycle(drafted, accepted))
  {
    DecimalNum(drafted);
    DecimalNum(accepted);
    DecimalNum(target);
    QwenFound("ds4: Qwen MTP timing drafted=" + Decimal(drafted) + (" accepted=" + Decimal(accepted)
              + (" target_tokens=" + Decimal(target) + rest)),
              Decimal(drafted), Decimal(accepted), Decimal(target), rest);
  }

  // Every line of the other paths reads back with the free first token taken off both numbers.
  lemma CycleReadsBack(mode: string, drafted: nat, committed: nat, rest: string)
    requires Mode(mode) && drafted < TWO_64 && committed < TWO_64 && EndsWord(rest)
    ensures ParseLine("ds4: mtp timing " + (mode + (" drafted=" + Decimal(drafted)
                      + (" committed=" + Decimal(committed) + rest)))) == Some(Cycle(Dec(drafted), Dec(committed)))
  {
    var line := "ds4: mtp timing " + (mode + (" drafted=" + Decimal(drafted)
                + (" committed=" + Decimal(committed) + rest)));
    DecimalNum(drafted);
    DecimalNum(committed);
    CycleFound(line, mode, Decimal(drafted), Decimal(committed), rest);
    CyclePrefix(line, mode, Decimal(drafted), Decimal(committed), rest);
    OtherPathIsNotQwen(line);
  }

  // The adapter looks at no line that does not begin as all of these do.
  lemma ReportedIsParsed(line: string)
    ensures Reported(line) == ParseLine(line)
  {
    LiteralsAreOurs();
    if ParseLine(line).Some? {
      var literal := LiteralOf(line);
      PrefixOfPrefix(line, literal, "ds4: ");
    }
  }

  const LITERALS := ["ds4: Qwen MTP timing drafted=", "ds4: mtp timing "]

  lemma LiteralOf(line: string) returns (literal: string)
    requires ParseLine(line).Some?
    ensures literal in LITERALS && HasPrefix(line, literal)
  {
    literal := if ParseQwen(line).Some? then LITERALS[0] else LITERALS[1];
  }

  lemma LiteralsAreOurs()
    ensures forall literal :: literal in LITERALS ==> HasPrefix(literal, "ds4: ")
  {
    assert HasPrefix("ds4: Qwen MTP timing drafted=", "ds4: ");
    assert HasPrefix("ds4: mtp timing ", "ds4: ");
  }

  lemma PrefixOfPrefix(line: string, long: string, short: string)
    requires HasPrefix(line, long) && HasPrefix(long, short)
    ensures HasPrefix(line, short)
  {
    assert line[..|short|] == line[..|long|][..|short|];
  }

  // ---- ds4: totals ---------------------------------------------------------------

  datatype Totals = Totals(seen: bool, proposed: nat, accepted: nat, verifies: nat)

  const ZERO := Totals(false, 0, 0, 0)

  // The cycle a log line reports, if it does.
  function Reported(line: string): Option<Cycle> {
    if HasPrefix(line, "ds4: ") then ParseLine(line) else None
  }

  // What one cycle adds, in 64-bit counters.
  function Add(t: Totals, c: Cycle): Totals {
    Totals(true, (t.proposed + c.proposed) % TWO_64, (t.accepted + c.accepted) % TWO_64,
           if c.proposed > 0 then (t.verifies + 1) % TWO_64 else t.verifies)
  }

  function Count(t: Totals, line: string): Totals {
    match Reported(line)
    case None => t
    case Some(c) => Add(t, c)
  }

  function CountAll(t: Totals, lines: seq<string>): Totals {
    if lines == [] then t else Count(CountAll(t, lines[..|lines| - 1]), lines[|lines| - 1])
  }

  lemma {:induction false} CountAllConcat(t: Totals, a: seq<string>, b: seq<string>)
    ensures CountAll(t, a + b) == CountAll(CountAll(t, a), b)
  {
    if b == [] {
      assert a + b == a;
    } else {
      assert (a + b)[..|a + b| - 1] == a + b[..|b| - 1];
      CountAllConcat(t, a, b[..|b| - 1]);
    }
  }

  // The cycles a log holds, and what they add up to without any word size.
  function Cycles(lines: seq<string>): seq<Cycle> {
    if lines == [] then []
    else
      match Reported(lines[|lines| - 1])
      case None => Cycles(lines[..|lines| - 1])
      case Some(c) => Cycles(lines[..|lines| - 1]) + [c]
  }

  function SumProposed(cycles: seq<Cycle>): nat {
    if cycles == [] then 0 else SumProposed(cycles[..|cycles| - 1]) + cycles[|cycles| - 1].proposed
  }

  function SumAccepted(cycles: seq<Cycle>): nat {
    if cycles == [] then 0 else SumAccepted(cycles[..|cycles| - 1]) + cycles[|cycles| - 1].accepted
  }

  function VerifySteps(cycles: seq<Cycle>): nat {
    if cycles == [] then 0
    else VerifySteps(cycles[..|cycles| - 1]) + (if cycles[|cycles| - 1].proposed > 0 then 1 else 0)
  }

  lemma SumsSnoc(cycles: seq<Cycle>, c: Cycle)
    ensures SumProposed(cycles + [c]) == SumProposed(cycles) + c.proposed
    ensures SumAccepted(cycles + [c]) == SumAccepted(cycles) + c.accepted
    ensures VerifySteps(cycles + [c]) == VerifySteps(cycles) + (if c.proposed > 0 then 1 else 0)
  {
    assert (cycles + [c])[..|cycles|] == cycles;
  }

  ghost predicate Tallies(t: Totals, cycles: seq<Cycle>) {
    && (t.seen <==> cycles != [])
    && t.proposed == SumProposed(cycles) % TWO_64
    && t.accepted == SumAccepted(cycles) % TWO_64
    && t.verifies == VerifySteps(cycles) % TWO_64
  }

  lemma ModAdd(x: nat, c: nat)
    ensures (x % TWO_64 + c) % TWO_64 == (x + c) % TWO_64
  {
  }

  lemma AddTallies(t: Totals, cycles: seq<Cycle>, c: Cycle)
    requires Tallies(t, cycles)
    ensures Tallies(Add(t, c), cycles + [c])
  {
    SumsSnoc(cycles, c);
    ModAdd(SumProposed(cycles), c.proposed);
    ModAdd(SumAccepted(cycles), c.accepted);
    ModAdd(VerifySteps(cycles), 1);
  }

  lemma {:induction false} StepsWithinProposed(cycles: seq<Cycle>)
    ensures VerifySteps(cycles) <= SumProposed(cycles)
  {
    if cycles == [] {
    } else {
      StepsWithinProposed(cycles[..|cycles| - 1]);
    }
  }

  lemma {:induction false} CountAllTallies(lines: seq<string>)
    ensures Tallies(CountAll(ZERO, lines), Cycles(lines))
  {
    if lines == [] {
    } else {
      var init, last := lines[..|lines| - 1], Reported(lines[|lines| - 1]);
      CountAllTallies(init);
      if last.Some? {
        AddTallies(CountAll(ZERO, init), Cycles(init), last.value);
      }
    }
  }

  // One counter shows the true sum exactly while that sum fits in 64 bits.
  lemma WrapsFrom(sum: nat)
    ensures sum % TWO_64 == sum <==> sum < TWO_64
  {
  }

  // The counters are the sums over the log's cycles modulo 2^64. Each is the true sum if and only if
  // that is below 2^64; and verify steps never exceed proposed tokens until these wrap around.
  lemma TotalsAreSums(lines: seq<string>)
    ensures Tallies(CountAll(ZERO, lines), Cycles(lines))
    ensures var t, cycles := CountAll(ZERO, lines), Cycles(lines);
      && (t.proposed == SumProposed(cycles) <==> SumProposed(cycles) < TWO_64)
      && (t.accepted == SumAccepted(cycles) <==> SumAccepted(cycles) < TWO_64)
      && (t.verifies == VerifySteps(cycles) <==> VerifySteps(cycles) < TWO_64)
      && VerifySteps(cycles) <= SumProposed(cycles)
      && (SumProposed(cycles) < TWO_64 ==> t.verifies <= t.proposed)
  {
    var cycles := Cycles(lines);
    CountAllTallies(lines);
    StepsWithinProposed(cycles);
    WrapsFrom(SumProposed(cycles));
    WrapsFrom(SumAccepted(cycles));
    WrapsFrom(VerifySteps(cycles));
  }

  function TimingLine(drafted: nat): string {
    "ds4: Qwen MTP timing drafted=" + Decimal(drafted) + (" accepted=" + Decimal(0)
    + (" target_tokens=" + Decimal(1) + ""))
  }

  lemma TimingLineReports(drafted: nat)
    requires drafted < TWO_64
    ensures ParseLine(TimingLine(drafted)) == Some(Cycle(drafted, 0))
  {
    QwenReadsBack(drafted, 0, 1, "");
  }

  lemma PrefixOfFront(front: string, rest: string, prefix: string)
    requires HasPrefix(front, prefix)
    ensures HasPrefix(front + rest, prefix)
  {
    assert (front + rest)[..|prefix|] == front[..|prefix|];
  }

  lemma TimingLineIsOurs(drafted: nat)
    ensures HasPrefix(TimingLine(drafted), "ds4: ")
  {
    var front := "ds4: Qwen MTP timing drafted=";
    var rest := Decimal(drafted) + (" accepted=" + Decimal(0) + (" target_tokens=" + Decimal(1) + ""));
    assert HasPrefix(front, "ds4: ");
    PrefixOfFront(front, rest, "ds4: ");
    assert TimingLine(drafted) == front + rest;
  }

  lemma CountSnoc(t: Totals, lines: seq<string>, line: string, c: Cycle)
    requires HasPrefix(line, "ds4: ") && ParseLine(line) == Some(c)
    ensures CountAll(t, lines + [line]) == Add(CountAll(t, lines), c)
  {
    assert (lines + [line])[..|lines|] == lines;
  }

  lemma TwoCyclesWrap()
    ensures Add(Add(ZERO, Cycle(TWO_64 - 1, 0)), Cycle(1, 0)) == Totals(true, 0, 0, 2)
  {
  }

  // Past 2^64 the bound fails: after these two lines there are two verify steps and no draft token.
  lemma StepsCanExceedProposed()
    ensures CountAll(ZERO, [] + [TimingLine(TWO_64 - 1)] + [TimingLine(1)]) == Totals(true, 0, 0, 2)
  {
    TimingLineReports(TWO_64 - 1);
    TimingLineIsOurs(TWO_64 - 1);
    TimingLineReports(1);
    TimingLineIsOurs(1);
    CountSnoc(ZERO, [], TimingLine(TWO_64 - 1), Cycle(TWO_64 - 1, 0));
    CountSnoc(ZERO, [] + [TimingLine(TWO_64 - 1)], TimingLine(1), Cycle(1, 0));
    TwoCyclesWrap();
  }
}
