/**
 * `parseArgs` of the two command-line generators: `--name value` pairs
 * become map entries; anything else is skipped one argument at a time.
 */
module CommandLine {
  import opened JavaStr

  /** The pairs from `args` on, put over `acc` in order (a later pair wins). */
  function ParseFrom(args: seq<string>, acc: map<string, string>): map<string, string>
    decreases |args|
  {
    if args == [] then acc
    else if StartsWith(args[0], "--") && |args| >= 2 then ParseFrom(args[2..], acc[args[0][2..] := args[1]])
    else ParseFrom(args[1..], acc)
  }

  function ParseSpec(args: seq<string>): map<string, string> { ParseFrom(args, map[]) }

  /** The loop of `parseArgs`, which skips the value it has just consumed. */
  method ParseArgs(args: seq<string>) returns (params: map<string, string>)
    ensures params == ParseSpec(args)
  {
    params := map[];
    var i := 0;
    while i < |args|
      invariant 0 <= i <= |args|
      invariant ParseFrom(args[i..], params) == ParseSpec(args)
    {
      assert args[i..][1..] == args[i + 1..];
      if StartsWith(args[i], "--") && i + 1 < |args| {
        assert args[i..][2..] == args[i + 2..];
        params := params[args[i][2..] := args[i + 1]];
        i := i + 1;
      }
      i := i + 1;
    }
  }

  /**
   * Every entry comes from a flag: some argument is `--` and the key, and
   * the argument after it is the value.
   */
  lemma {:induction false} ParsedFromFlags(args: seq<string>, acc: map<string, string>)
    ensures forall k :: k in ParseFrom(args, acc) ==>
      (k in acc && ParseFrom(args, acc)[k] == acc[k]) ||
      exists i :: 0 <= i < |args| - 1 && args[i] == "--" + k && args[i + 1] == ParseFrom(args, acc)[k]
    decreases |args|
  {
    if args == [] {
    } else if StartsWith(args[0], "--") && |args| >= 2 {
      var acc' := acc[args[0][2..] := args[1]];
      ParsedFromFlags(args[2..], acc');
      var r := ParseFrom(args, acc);
      forall k | k in r && !(k in acc && r[k] == acc[k])
        ensures exists i :: 0 <= i < |args| - 1 && args[i] == "--" + k && args[i + 1] == r[k]
      {
        if k == args[0][2..] && r[k] == args[1] {
          assert args[0] == "--" + k;
        } else if !(k in acc' && r[k] == acc'[k]) {
          var i :| 0 <= i < |args[2..]| - 1 && args[2..][i] == "--" + k && args[2..][i + 1] == r[k];
          assert args[i + 2] == "--" + k && args[i + 3] == r[k];
        }
      }
    } else {
      ParsedFromFlags(args[1..], acc);
      var r := ParseFrom(args, acc);
      forall k | k in r && !(k in acc && r[k] == acc[k])
        ensures exists i :: 0 <= i < |args| - 1 && args[i] == "--" + k && args[i + 1] == r[k]
      {
        var i :| 0 <= i < |args[1..]| - 1 && args[1..][i] == "--" + k && args[1..][i + 1] == r[k];
        assert args[i + 1] == "--" + k && args[i + 2] == r[k];
      }
    }
  }

  /** The pairs land over what was already there: `acc` only shows where no pair sets the key. */
  lemma {:induction false} ParseFromOver(args: seq<string>, acc: map<string, string>)
    ensures ParseFrom(args, acc) == acc + ParseFrom(args, map[])
    decreases |args|
  {
    if args == [] {
    } else if StartsWith(args[0], "--") && |args| >= 2 {
      var k := args[0][2..];
      ParseFromOver(args[2..], acc[k := args[1]]);
      ParseFromOver(args[2..], map[k := args[1]]);
      var rest := ParseFrom(args[2..], map[]);
      assert acc[k := args[1]] + rest == acc + (map[k := args[1]] + rest);
    } else {
      ParseFromOver(args[1..], acc);
    }
  }

  /** A key no argument flags keeps the value it had before the arguments were read. */
  lemma KeepsUnflagged(args: seq<string>, acc: map<string, string>, k: string)
    requires forall i :: 0 <= i < |args| ==> args[i] != "--" + k
    ensures k in ParseFrom(args, acc) <==> k in acc
    ensures k in acc ==> ParseFrom(args, acc)[k] == acc[k]
  {
    ParseFromOver(args, acc);
    ParsedFromFlags(args, map[]);
  }

  /**
   * A leading `--name value` pair sets `name` to `value` unless a later
   * argument flags the same name again.
   */
  lemma FlagSetsKey(k: string, v: string, rest: seq<string>, acc: map<string, string>)
    requires forall i :: 0 <= i < |rest| ==> rest[i] != "--" + k
    ensures k in ParseFrom(["--" + k, v] + rest, acc) && ParseFrom(["--" + k, v] + rest, acc)[k] == v
  {
    var args := ["--" + k, v] + rest;
    assert StartsWith(args[0], "--") && args[0][2..] == k;
    assert args[2..] == rest;
    KeepsUnflagged(rest, acc[k := v], k);
  }

  /** A run of `--name value` pairs parses to those names and values. */
  lemma ThreeFlags(a: string, b: string, c: string)
    ensures ParseSpec(["--form-structure", a, "--mapping-hints", b, "--output", c]) ==
      map["form-structure" := a, "mapping-hints" := b, "output" := c]
  {
    var args := ["--form-structure", a, "--mapping-hints", b, "--output", c];
    assert StartsWith(args[0], "--") && args[0][2..] == "form-structure";
    assert args[2..] == ["--mapping-hints", b, "--output", c];
    assert StartsWith(args[2], "--") && args[2][2..] == "mapping-hints";
    assert args[4..] == ["--output", c];
    assert StartsWith(args[4], "--") && args[4][2..] == "output";
    assert args[6..] == [];
    var m1 := map["form-structure" := a];
    var m2 := m1["mapping-hints" := b];
    var m3 := m2["output" := c];
    assert ParseFrom(args[4..], m2) == ParseFrom([], m3);
    assert ParseFrom(args[2..], m1) == ParseFrom(args[4..], m2);
    assert ParseFrom(args, map[]) == ParseFrom(args[2..], m1);
  }

  /** A trailing flag with no value is dropped. */
  lemma DanglingFlag(name: string)
    ensures ParseSpec(["--" + name]) == map[]
  {
    var args := ["--" + name];
    assert args[1..] == [];
    assert ParseFrom(args, map[]) == ParseFrom([], map[]);
  }
}
