/**
 * The layout both media-tool commands share: the program, the overwrite
 * flag `-y`, options each followed by its value, and the output path last.
 */
module ArgList {

  predicate WellFormed(cmd: seq<string>) {
    |cmd| >= 3 && |cmd| % 2 == 1 && cmd[1] == "-y"
  }

  /** Consecutive elements taken two at a time. */
  function Pairs(s: seq<string>): seq<(string, string)>
    requires |s| % 2 == 0
    decreases |s|
  {
    if s == [] then [] else [(s[0], s[1])] + Pairs(s[2..])
  }

  /** The options of a well-formed command, each with the value that follows it. */
  function Options(cmd: seq<string>): seq<(string, string)>
    requires WellFormed(cmd)
  {
    Pairs(cmd[2..|cmd| - 1])
  }

  /** The path the tool writes: the last argument. */
  function Output(cmd: seq<string>): string
    requires |cmd| > 0
  {
    cmd[|cmd| - 1]
  }

  /** The value one option gives to `flag`, if it names `flag`. */
  function ValueFor(option: (string, string), flag: string): seq<string>
  {
    if option.0 == flag then [option.1] else []
  }

  /** The options of a command with three of them, by position. */
  lemma ThreeOptions(cmd: seq<string>)
    requires WellFormed(cmd) && |cmd| == 9
    ensures Options(cmd) == [(cmd[2], cmd[3]), (cmd[4], cmd[5]), (cmd[6], cmd[7])]
  {
    OptionAt(cmd, 0);
    OptionAt(cmd, 1);
    OptionAt(cmd, 2);
  }

  /** The options of a command with six of them, by position. */
  lemma SixOptions(cmd: seq<string>)
    requires WellFormed(cmd) && |cmd| == 15
    ensures Options(cmd) == [(cmd[2], cmd[3]), (cmd[4], cmd[5]), (cmd[6], cmd[7]),
                             (cmd[8], cmd[9]), (cmd[10], cmd[11]), (cmd[12], cmd[13])]
  {
    OptionAt(cmd, 0);
    OptionAt(cmd, 1);
    OptionAt(cmd, 2);
    OptionAt(cmd, 3);
    OptionAt(cmd, 4);
    OptionAt(cmd, 5);
  }

  /** The values given to `flag`, in order. */
  function ValuesOf(options: seq<(string, string)>, flag: string): seq<string>
  {
    if options == [] then [] else ValueFor(options[0], flag) + ValuesOf(options[1..], flag)
  }

  /** The `k`th pair sits at positions `2k` and `2k + 1`: a value immediately follows its option. */
  lemma {:induction false} PairAt(s: seq<string>, k: nat)
    requires |s| % 2 == 0 && k < |s| / 2
    ensures |Pairs(s)| == |s| / 2 && Pairs(s)[k] == (s[2 * k], s[2 * k + 1])
  {
    if k > 0 {
      PairAt(s[2..], k - 1);
    } else if |s| > 2 {
      PairAt(s[2..], 0);
    }
  }

  /** Each option of a well-formed command is immediately followed by its value in the argument list. */
  lemma OptionAt(cmd: seq<string>, k: nat)
    requires WellFormed(cmd) && k < (|cmd| - 3) / 2
    ensures |Options(cmd)| == (|cmd| - 3) / 2
    ensures Options(cmd)[k] == (cmd[2 * k + 2], cmd[2 * k + 3])
  {
    PairAt(cmd[2..|cmd| - 1], k);
  }

  /** Concatenated option lists give the values of both, in order. */
  lemma {:induction false} ValuesOfConcat(a: seq<(string, string)>, b: seq<(string, string)>, flag: string)
    ensures ValuesOf(a + b, flag) == ValuesOf(a, flag) + ValuesOf(b, flag)
  {
    if a == [] {
      assert a + b == b;
    } else {
      var ab := a + b;
      assert ab != [] && ab[0] == a[0] && ab[1..] == a[1..] + b;
      var head, rest, tail := ValueFor(a[0], flag), ValuesOf(a[1..], flag), ValuesOf(b, flag);
      ValuesOfConcat(a[1..], b, flag);
      calc {
        ValuesOf(ab, flag);
        head + ValuesOf(ab[1..], flag);
        head + (rest + tail);
        (head + rest) + tail;
      }
    }
  }

  /** A flag that no option names has no values. */
  lemma {:induction false} ValuesOfAbsent(options: seq<(string, string)>, flag: string)
    requires forall k :: 0 <= k < |options| ==> options[k].0 != flag
    ensures ValuesOf(options, flag) == []
  {
    if options != [] {
      ValuesOfAbsent(options[1..], flag);
    }
  }

  /** A flag named by exactly one option has exactly that option's value. */
  lemma ValuesOfUnique(options: seq<(string, string)>, flag: string, k: nat)
    requires k < |options| && options[k].0 == flag
    requires forall j :: 0 <= j < |options| && j != k ==> options[j].0 != flag
    ensures ValuesOf(options, flag) == [options[k].1]
  {
    var before, after := options[..k], options[k + 1..];
    assert options == before + ([options[k]] + after);
    ValuesOfConcat(before, [options[k]] + after, flag);
    ValuesOfConcat([options[k]], after, flag);
    assert ValuesOf([options[k]], flag) == [options[k].1] by {
      assert [options[k]][1..] == [];
    }
    ValuesOfAbsent(before, flag);
    ValuesOfAbsent(after, flag);
  }
}
