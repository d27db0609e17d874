/** Splitting a bot command line into the command word and its arguments;
    double quotes group words that contain spaces. */
module CommandArgs {
  import opened Wrappers
  import opened PyStr

  /** The loop state: the finished arguments, the argument being built, and
      whether an opening quote is still unmatched. */
  datatype ScanState = ScanState(args: seq<string>, arg: string, quoted: bool)

  const Start: ScanState := ScanState([], "", false)

  /** One iteration of the loop over the argument text. */
  function Step(st: ScanState, c: char): ScanState {
    if c == '"' then st.(quoted := !st.quoted)
    else if c == ' ' && !st.quoted then ScanState(st.args + [st.arg], "", st.quoted)
    else st.(arg := st.arg + [c])
  }

  /** The loop over a whole text. */
  function Scan(st: ScanState, s: string): ScanState
    decreases |s|
  {
    if |s| == 0 then st else Scan(Step(st, s[0]), s[1..])
  }

  const UnclosedQuote: Exception := ValueError("Quote was not closed in argument")


  /** The index of the first space of `s`, if any. */
  function FirstSpace(s: string): (r: Option<nat>)
    ensures r.Some? ==> r.value < |s| && s[r.value] == ' ' && ' ' !in s[..r.value]
    ensures r.None? ==> ' ' !in s
  {
    if |s| == 0 then None
    else if s[0] == ' ' then Some(0)
    else match FirstSpace(s[1..])
      case None => None
      case Some(i) => assert s[..i + 1] == [s[0]] + s[1..][..i]; Some(i + 1)
  }

  /** `extract_command_and_args`. A text without a space is a command with
      no arguments; otherwise the command is the text before the first space
      and the arguments are split from the text after it. */
  function ExtractCommandAndArgs(s: string): (r: Result<(string, seq<string>), Exception>)
    ensures ' ' !in s ==> r == Ok((s, []))
    ensures ' ' in s ==> exists k ::
      && 0 <= k < |s| && s[k] == ' ' && ' ' !in s[..k]
      && r == (match SplitArgs(s[k + 1..])
               case Ok(args) => Ok((s[..k], args))
               case Err(e) => Err(e))
  {
    match FirstSpace(s)
    case None => Ok((s, []))
    case Some(k) =>
      match SplitArgs(s[k + 1..])
      case Ok(args) => Ok((s[..k], args))
      case Err(e) => Err(e)
  }

  // ---------------------------------------------------------------------
  // A reference description of the split, by counting quotes

  function CountQuotes(s: string): nat {
    if |s| == 0 then 0 else CountQuotes(s[..|s| - 1]) + (if s[|s| - 1] == '"' then 1 else 0)
  }

  /** Position `i` lies inside quotes: an odd number of quotes precede it. */
  predicate InQuotes(s: string, i: nat)
    requires i <= |s|
  {
    CountQuotes(s[..i]) % 2 == 1
  }

  /** The character at `i` is a separator: a space outside quotes. */
  predicate SeparatorAt(s: string, i: nat)
    requires i < |s|
  {
    s[i] == ' ' && !InQuotes(s, i)
  }

  /** The characters that end up inside some argument: everything except
      quotes and separators. */
  function Kept(s: string): string {
    if |s| == 0 then ""
    else
      var i := |s| - 1;
      Kept(s[..i]) + (if s[i] == '"' || SeparatorAt(s, i) then "" else [s[i]])
  }

  function CountSeparators(s: string): nat {
    if |s| == 0 then 0
    else CountSeparators(s[..|s| - 1]) + (if SeparatorAt(s, |s| - 1) then 1 else 0)
  }

  lemma {:induction false} ScanSnoc(st: ScanState, s: string, c: char)
    ensures Scan(st, s + [c]) == Step(Scan(st, s), c)
    decreases |s|
  {
    if |s| == 0 {
      assert s + [c] == [c];
    } else {
      assert (s + [c])[1..] == s[1..] + [c];
      ScanSnoc(Step(st, s[0]), s[1..], c);
    }
  }

  /** What the loop has built after reading `s`: the unmatched-quote flag is
      the parity of the quotes read, one argument has been finished per
      separator, and the arguments together with the current one hold
      exactly the kept characters. */
  lemma {:induction false} ScanInvariant(s: string)
    ensures var st := Scan(Start, s);
      && st.quoted == InQuotes(s, |s|)
      && |st.args| == CountSeparators(s)
      && Join(st.args, "") + st.arg == Kept(s)
      && (forall j :: 0 <= j < |st.args| ==> '"' !in st.args[j])
      && '"' !in st.arg
    decreases |s|
  {
    if |s| > 0 {
      var i := |s| - 1;
      var p := s[..i];
      assert s == p + [s[i]];
      ScanInvariant(p);
      ScanSnoc(Start, p, s[i]);
      assert s[..i] == p;
      assert p[..|p|] == p && s[..|s|] == s;
      assert InQuotes(s, i) == InQuotes(p, |p|);
      assert CountQuotes(s) == CountQuotes(p) + (if s[i] == '"' then 1 else 0);
      var st := Scan(Start, p);
      if s[i] == ' ' && !st.quoted {
        JoinNothingSnoc(st.args, st.arg);
      }
    }
  }

  /** The loop only ever appends finished arguments: those already finished
      stay as they are. */
  lemma {:induction false} ScanKeepsArgs(st: ScanState, s: string)
    ensures st.args <= Scan(st, s).args
    decreases |s|
  {
    if |s| > 0 {
      var next := Step(st, s[0]);
      assert st.args <= next.args;
      ScanKeepsArgs(next, s[1..]);
    }
  }

  /** At a separator, the arguments finished so far are exactly the kept
      characters before it, and later characters do not change them. */
  lemma ArgumentsBeforeSeparator(argText: string, i: nat)
    requires i < |argText| && SeparatorAt(argText, i)
    ensures var fin := Scan(Start, argText);
      && CountSeparators(argText[..i]) < |fin.args|
      && Join(fin.args[..CountSeparators(argText[..i]) + 1], "") == Kept(argText[..i])
  {
    var p := argText[..i];
    ScanInvariant(p);
    var st := Scan(Start, p);
    assert p[..|p|] == p;
    assert !st.quoted;
    ScanSnoc(Start, p, ' ');
    assert argText[..i + 1] == p + [' '];
    var sep := Step(st, ' ');
    assert sep.args == st.args + [st.arg];
    assert argText == argText[..i + 1] + argText[i + 1..];
    ScanConcat(Start, argText[..i + 1], argText[i + 1..]);
    ScanKeepsArgs(sep, argText[i + 1..]);
    var fin := Scan(Start, argText);
    assert fin.args[..|st.args| + 1] == st.args + [st.arg];
    JoinNothingSnoc(st.args, st.arg);
  }

  /** The argument part: the loop, the unclosed-quote check, and the last
      argument appended. An unclosed quote is the only error; otherwise
      there is one more argument than there are separators, no argument
      holds a quote, and the arguments put together are the argument text
      without its quotes and separators. */
  function SplitArgs(argText: string): (r: Result<seq<string>, Exception>)
    ensures r.Err? <==> InQuotes(argText, |argText|)
    ensures r.Err? ==> r == Err(UnclosedQuote)
    ensures r.Ok? ==>
      && |r.value| == CountSeparators(argText) + 1
      && Join(r.value, "") == Kept(argText)
      && (forall j :: 0 <= j < |r.value| ==> '"' !in r.value[j])
    ensures r.Ok? ==> forall i :: 0 <= i < |argText| && SeparatorAt(argText, i) ==>
      && CountSeparators(argText[..i]) < |r.value|
      && Join(r.value[..CountSeparators(argText[..i]) + 1], "") == Kept(argText[..i])
  {
    ScanInvariant(argText);
    var st := Scan(Start, argText);
    JoinNothingSnoc(st.args, st.arg);
    if st.quoted then Err(UnclosedQuote)
    else
      assert forall i :: 0 <= i < |argText| && SeparatorAt(argText, i) ==>
        && CountSeparators(argText[..i]) < |st.args + [st.arg]|
        && Join((st.args + [st.arg])[..CountSeparators(argText[..i]) + 1], "") == Kept(argText[..i])
      by {
        forall i | 0 <= i < |argText| && SeparatorAt(argText, i)
          ensures && CountSeparators(argText[..i]) < |st.args + [st.arg]|
                  && Join((st.args + [st.arg])[..CountSeparators(argText[..i]) + 1], "") == Kept(argText[..i])
        {
          ArgumentsBeforeSeparator(argText, i);
          var k := CountSeparators(argText[..i]) + 1;
          assert (st.args + [st.arg])[..k] == st.args[..k];
        }
      }
      Ok(st.args + [st.arg])
  }

  // ---------------------------------------------------------------------
  // Round trip: quoting every argument and joining with spaces

  function Quote(a: string): string {
    "\"" + a + "\""
  }

  function QuoteAll(args: seq<string>): (r: seq<string>)
    ensures |r| == |args|
    ensures forall i :: 0 <= i < |args| ==> r[i] == Quote(args[i])
  {
    seq(|args|, i requires 0 <= i < |args| => Quote(args[i]))
  }

  lemma {:induction false} ScanConcat(st: ScanState, x: string, y: string)
    ensures Scan(st, x + y) == Scan(Scan(st, x), y)
    decreases |x|
  {
    if |x| == 0 {
      assert x + y == y;
    } else {
      assert (x + y)[0] == x[0];
      assert (x + y)[1..] == x[1..] + y;
      ScanConcat(Step(st, x[0]), x[1..], y);
    }
  }

  lemma {:induction false} ScanInsideQuotes(st: ScanState, a: string)
    requires st.quoted && '"' !in a
    ensures Scan(st, a) == st.(arg := st.arg + a)
    decreases |a|
  {
    if |a| == 0 {
      assert st.arg + a == st.arg;
    } else {
      assert a[0] != '"';
      ScanInsideQuotes(Step(st, a[0]), a[1..]);
      assert st.arg + a == st.arg + [a[0]] + a[1..];
    }
  }

  lemma ScanQuoted(st: ScanState, a: string)
    requires !st.quoted && '"' !in a
    ensures Scan(st, Quote(a)) == st.(arg := st.arg + a)
  {
    var st1 := Step(st, '"');
    assert Scan(st, "\"") == st1 by {
      assert Scan(st1, "") == st1;
    }
    ScanConcat(st, "\"", a + "\"");
    assert Quote(a) == "\"" + (a + "\"");
    ScanConcat(st1, a, "\"");
    ScanInsideQuotes(st1, a);
    var st2 := st1.(arg := st1.arg + a);
    assert Scan(st2, "\"") == Step(st2, '"') by {
      assert Scan(Step(st2, '"'), "") == Step(st2, '"');
    }
  }

  /** Scanning the quoted, space-joined arguments from a fresh argument
      finishes all but the last and leaves the last one current. */
  lemma {:induction false} ScanJoined(args: seq<string>)
    requires |args| > 0
    requires forall j :: 0 <= j < |args| ==> '"' !in args[j]
    ensures Scan(Start, Join(QuoteAll(args), " ")) == ScanState(args[..|args| - 1], args[|args| - 1], false)
    decreases |args|
  {
    var n := |args|;
    var q := QuoteAll(args);
    if n == 1 {
      ScanQuoted(Start, args[0]);
    } else {
      var front := args[..n - 1];
      assert QuoteAll(front) == q[..n - 1];
      ScanJoined(front);
      var j := Join(q[..n - 1], " ");
      assert Join(q, " ") == j + " " + q[n - 1];
      ScanConcat(Start, j + " ", q[n - 1]);
      ScanSnoc(Start, j, ' ');
      var st := ScanState(front[..n - 2], front[n - 2], false);
      assert Step(st, ' ') == ScanState(front, "", false) by {
        assert front[..n - 2] + [front[n - 2]] == front;
      }
      ScanQuoted(ScanState(front, "", false), args[n - 1]);
      assert args[..n - 1] == front;
    }
  }

  /** Any command word without spaces and any non-empty list of quote-free
      arguments survive quoting, joining and splitting unchanged. */
  lemma ExtractRoundTrip(command: string, args: seq<string>)
    requires ' ' !in command
    requires |args| > 0
    requires forall j :: 0 <= j < |args| ==> '"' !in args[j]
    ensures ExtractCommandAndArgs(command + " " + Join(QuoteAll(args), " ")) == Ok((command, args))
  {
    var text := Join(QuoteAll(args), " ");
    var s := command + " " + text;
    assert s[|command|] == ' ';
    assert s[..|command|] == command;
    assert FirstSpace(s) == Some(|command|);
    assert s[|command| + 1..] == text;
    ScanJoined(args);
    assert args[..|args| - 1] + [args[|args| - 1]] == args;
  }
}
