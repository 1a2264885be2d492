/**
 * Day 2 (src/2.ts): the submarine's horizontal position `h`, depth `d` and
 * `aim`, updated command line by command line.
 */
module Navigation {

  /** The reducer's accumulator `{ h, d, aim }`. */
  datatype Position = Position(h: int, d: int, aim: int)

  /** A command line after `split(' ')` and `parseInt`: its direction word and its step count. */
  datatype Command = Command(direction: string, steps: nat)

  predicate IsDigit(c: char) { '0' as int <= c as int <= '9' as int }

  predicate IsDigits(s: string) { forall j :: 0 <= j < |s| ==> IsDigit(s[j]) }

  /** The index of the first space of the line: where `split(' ')` ends the direction word. */
  function FirstSpace(line: string): (k: nat)
    requires ' ' in line
    ensures k < |line| && line[k] == ' ' && ' ' !in line[..k]
  {
    if line[0] == ' ' then 0
    else
      var k := FirstSpace(line[1..]);
      assert line[..k + 1] == [line[0]] + line[1..][..k];
      k + 1
  }

  /**
   * A well-formed command line: a direction word, one space, then a non-empty
   * run of decimal digits and nothing else.
   */
  predicate IsCommandLine(line: string) {
    ' ' in line && FirstSpace(line) + 1 < |line| && IsDigits(line[FirstSpace(line) + 1..])
  }

  /** The decimal value of a string of digits, most significant digit first (`parseInt`). */
  function DecimalValue(digits: string): nat
    requires IsDigits(digits)
  {
    if |digits| == 0 then 0
    else 10 * DecimalValue(digits[..|digits| - 1]) + (digits[|digits| - 1] as int - '0' as int)
  }

  /** `const [ direction, strSteps ] = val.split(' ')` and `parseInt(strSteps)` on a well-formed line. */
  function ParseLine(line: string): (c: Command)
    requires IsCommandLine(line)
    ensures ' ' !in c.direction && |c.direction| < |line|
    ensures line[..|c.direction|] == c.direction && line[|c.direction|] == ' '
  {
    var k := FirstSpace(line);
    Command(line[..k], DecimalValue(line[k + 1..]))
  }

  /** Splitting a word, a space and a number recovers the word and the number's value. */
  lemma ParseJoined(word: string, digits: string)
    requires ' ' !in word && |digits| > 0 && IsDigits(digits)
    ensures IsCommandLine(word + " " + digits)
    ensures ParseLine(word + " " + digits) == Command(word, DecimalValue(digits))
  {
    var line := word + " " + digits;
    assert line[|word|] == ' ';
    var k := FirstSpace(line);
    assert line[..|word|] == word;
    assert k == |word|;
    assert line[..k] == word;
    assert line[k + 1..] == digits;
  }

  /** The body of the reducer: `up` and `down` steer, `forward` moves, any other word is ignored. */
  function Step(acc: Position, c: Command): (r: Position)
  {
    if c.direction == "up" then acc.(aim := acc.aim - c.steps)
    else if c.direction == "down" then acc.(aim := acc.aim + c.steps)
    else if c.direction == "forward" then acc.(h := acc.h + c.steps, d := acc.d + acc.aim * c.steps)
    else acc
  }

  /** The reduce of `getPosition`, from `{ h: 0, d: 0, aim: 0 }`, command by command. */
  function Navigate(cmds: seq<Command>): (r: Position)
    ensures r.h >= 0
  {
    if |cmds| == 0 then Position(0, 0, 0)
    else Step(Navigate(cmds[..|cmds| - 1]), cmds[|cmds| - 1])
  }

  function Commands(lines: seq<string>): (cmds: seq<Command>)
    requires forall i :: 0 <= i < |lines| ==> IsCommandLine(lines[i])
    ensures |cmds| == |lines|
  {
    seq(|lines|, i requires 0 <= i < |lines| => ParseLine(lines[i]))
  }

  /** `getPosition`: the accumulator's fields are updated in place, line by line. */
  method GetPosition(input: seq<string>) returns (pos: Position)
    requires forall i :: 0 <= i < |input| ==> IsCommandLine(input[i])
    ensures pos == Navigate(Commands(input))
  {
    var h, d, aim := 0, 0, 0;
    var i := 0;
    while i < |input|
      invariant 0 <= i <= |input|
      invariant Position(h, d, aim) == Navigate(Commands(input)[..i])
    {
      var c := ParseLine(input[i]);
      if c.direction == "up" { aim := aim - c.steps; }
      if c.direction == "down" { aim := aim + c.steps; }
      if c.direction == "forward" {
        h := h + c.steps;
        d := d + aim * c.steps;
      }
      assert Commands(input)[..i + 1][..i] == Commands(input)[..i];
      i := i + 1;
    }
    assert Commands(input)[..i] == Commands(input);
    pos := Position(h, d, aim);
  }

  /** `up n` lowers the aim by n, `down n` raises it by n; neither moves the submarine. */
  lemma SteerOnly(acc: Position, n: nat)
    ensures Step(acc, Command("up", n)) == Position(acc.h, acc.d, acc.aim - n)
    ensures Step(acc, Command("down", n)) == Position(acc.h, acc.d, acc.aim + n)
  {
  }

  /** `forward n` moves n ahead and aim * n down, keeping the aim. */
  lemma ForwardMoves(acc: Position, n: nat)
    ensures Step(acc, Command("forward", n)) == Position(acc.h + n, acc.d + acc.aim * n, acc.aim)
  {
  }

  /** A direction word other than up, down and forward leaves the accumulator as it was. */
  lemma UnknownDirectionIgnored(acc: Position, c: Command)
    requires c.direction != "up" && c.direction != "down" && c.direction != "forward"
    ensures Step(acc, c) == acc
  {
  }

  /** Sum of the steps of the commands with the given direction word. */
  function StepsOf(cmds: seq<Command>, direction: string): nat {
    if |cmds| == 0 then 0
    else StepsOf(cmds[..|cmds| - 1], direction) + (if cmds[|cmds| - 1].direction == direction then cmds[|cmds| - 1].steps else 0)
  }

  /** Down steps minus up steps among the commands. */
  function NetAim(cmds: seq<Command>): int {
    StepsOf(cmds, "down") - StepsOf(cmds, "up")
  }

  /** Sum, over the forward commands, of the aim in force before the command times its steps. */
  function DepthGained(cmds: seq<Command>): int {
    if |cmds| == 0 then 0
    else
      var last := cmds[|cmds| - 1];
      DepthGained(cmds[..|cmds| - 1]) + (if last.direction == "forward" then NetAim(cmds[..|cmds| - 1]) * last.steps else 0)
  }

  /**
   * Closed form of the fold: `h` is the sum of the forward steps, `aim` the down
   * steps minus the up steps, and `d` the sum of aim-times-steps over the forward
   * commands.
   */
  lemma {:induction false} NavigateClosedForm(cmds: seq<Command>)
    ensures Navigate(cmds) == Position(StepsOf(cmds, "forward"), DepthGained(cmds), NetAim(cmds))
  {
    if |cmds| > 0 {
      NavigateClosedForm(cmds[..|cmds| - 1]);
    }
  }

  /** With no input lines the position is all zeros. */
  lemma EmptyInput()
    ensures Navigate(Commands([])) == Position(0, 0, 0)
  {
  }

  /** Navigating two commands, one step at a time. */
  lemma NavigateTwo(cmds: seq<Command>)
    requires |cmds| == 2
    ensures Navigate(cmds) == Step(Step(Position(0, 0, 0), cmds[0]), cmds[1])
  {
    var first := cmds[..1];
    assert first[..0] == [] && first[0] == cmds[0];
    assert Navigate(first) == Step(Position(0, 0, 0), cmds[0]);
  }

  /** Navigating three commands, one step at a time. */
  lemma NavigateThree(cmds: seq<Command>)
    requires |cmds| == 3
    ensures Navigate(cmds) == Step(Step(Step(Position(0, 0, 0), cmds[0]), cmds[1]), cmds[2])
  {
    NavigateTwo(cmds[..2]);
  }

  /** The forward test: `forward 1`, `forward 5` end at h = 6 with the depth still 0. */
  lemma ForwardSample(a: string, b: string)
    requires a == "forward 1" && b == "forward 5"
    ensures IsCommandLine(a) && IsCommandLine(b)
    ensures Navigate(Commands([a, b])) == Position(6, 0, 0)
  {
    assert a == "forward" + " " + "1";
    ParseJoined("forward", "1");
    assert b == "forward" + " " + "5";
    ParseJoined("forward", "5");
    NavigateTwo(Commands([a, b]));
  }

  /** The down test: `down 10`, `down 8` set the aim to 18 and move nothing. */
  lemma DownSample(a: string, b: string)
    requires a == "down 10" && b == "down 8"
    ensures IsCommandLine(a) && IsCommandLine(b)
    ensures Navigate(Commands([a, b])) == Position(0, 0, 18)
  {
    assert a == "down" + " " + "10";
    ParseJoined("down", "10");
    assert "10"[..1] == "1";
    assert b == "down" + " " + "8";
    ParseJoined("down", "8");
    NavigateTwo(Commands([a, b]));
  }

  /** The aim test: `forward 1`, `down 10`, `forward 5` end at h = 6, d = 50, aim = 10. */
  lemma AimSample(a: string, b: string, c: string)
    requires a == "forward 1" && b == "down 10" && c == "forward 5"
    ensures IsCommandLine(a) && IsCommandLine(b) && IsCommandLine(c)
    ensures Navigate(Commands([a, b, c])) == Position(6, 50, 10)
  {
    AimCommands(a, b, c);
    AimMoves(Commands([a, b, c]));
  }

  /** The lines of the aim test parse to forward 1, down 10 and forward 5. */
  lemma AimCommands(a: string, b: string, c: string)
    requires a == "forward 1" && b == "down 10" && c == "forward 5"
    ensures IsCommandLine(a) && IsCommandLine(b) && IsCommandLine(c)
    ensures Commands([a, b, c]) == [Command("forward", 1), Command("down", 10), Command("forward", 5)]
  {
    assert a == "forward" + " " + "1";
    ParseJoined("forward", "1");
    assert b == "down" + " " + "10";
    ParseJoined("down", "10");
    assert "10"[..1] == "1";
    assert c == "forward" + " " + "5";
    ParseJoined("forward", "5");
    CommandsOfThree(a, b, c);
  }

  /** Three well-formed lines parse one by one. */
  lemma CommandsOfThree(a: string, b: string, c: string)
    requires IsCommandLine(a) && IsCommandLine(b) && IsCommandLine(c)
    ensures Commands([a, b, c]) == [ParseLine(a), ParseLine(b), ParseLine(c)]
  {
  }

  /** The commands of the aim test, folded. */
  lemma AimMoves(cmds: seq<Command>)
    requires cmds == [Command("forward", 1), Command("down", 10), Command("forward", 5)]
    ensures Navigate(cmds) == Position(6, 50, 10)
  {
    NavigateThree(cmds);
  }
}
