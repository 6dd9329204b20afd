/** compiler/api/compiler.py, sort_args: optional arguments go behind the others and
    the flags words go altogether. */
module SortArgs {

  /** An argument by name and type, sorted into the three sorts the patterns tell
      apart: no type is both `#` and behind a flag. */
  datatype Sort = Required | Optional | FlagsWord

  datatype Arg = Arg(name: string, typ: string, sort: Sort)

  function Only(args: seq<Arg>, sort: Sort): seq<Arg> {
    if args == [] then [] else (if args[0].sort == sort then [args[0]] else []) + Only(args[1..], sort)
  }

  function Except(args: seq<Arg>, sort: Sort): seq<Arg> {
    if args == [] then [] else (if args[0].sort == sort then [] else [args[0]]) + Except(args[1..], sort)
  }

  /** list.remove: the first equal element. */
  function Remove(args: seq<Arg>, a: Arg): seq<Arg>
    requires a in args
  {
    if args[0] == a then args[1..] else [args[0]] + Remove(args[1..], a)
  }

  /** Removing the first of a sort by value removes just that one. */
  lemma {:induction false} RemoveFirst(args: seq<Arg>, sort: Sort)
    requires Only(args, sort) != []
    ensures Only(args, sort)[0] in args
    ensures Only(Remove(args, Only(args, sort)[0]), sort) == Only(args, sort)[1..]
    ensures Except(Remove(args, Only(args, sort)[0]), sort) == Except(args, sort)
  {
    var a := Only(args, sort)[0];
    if args[0].sort == sort {
      assert Only(args, sort) == [args[0]] + Only(args[1..], sort);
    } else {
      assert Only(args, sort) == Only(args[1..], sort);
      RemoveFirst(args[1..], sort);
      OnlySort(args[1..], sort);
      var r := Remove(args[1..], a);
      assert ([args[0]] + r)[1..] == r;
    }
  }

  lemma {:induction false} OnlySort(args: seq<Arg>, sort: Sort)
    ensures forall k :: 0 <= k < |Only(args, sort)| ==> Only(args, sort)[k].sort == sort
  {
    if args != [] { OnlySort(args[1..], sort); }
  }

  lemma {:induction false} NoneLeft(args: seq<Arg>, sort: Sort)
    requires Only(args, sort) == []
    ensures Except(args, sort) == args
  {
    if args != [] { NoneLeft(args[1..], sort); }
  }

  /** Removing all of a sort one by one, by value, leaves the others in order. */
  method RemoveAll(args: seq<Arg>, sort: Sort) returns (rest: seq<Arg>)
    ensures rest == Except(args, sort)
  {
    hide Only, Except;
    var gone := Only(args, sort);
    rest := args;
    var k := 0;
    assert gone[0..] == gone;
    while k < |gone|
      invariant 0 <= k <= |gone| && Only(rest, sort) == gone[k..] && Except(rest, sort) == Except(args, sort)
    {
      RemoveFirst(rest, sort);
      assert gone[k..][0] == gone[k] && gone[k..][1..] == gone[k + 1..];
      rest := Remove(rest, gone[k]);
      k := k + 1;
    }
    NoneLeft(rest, sort);
  }

  method SortArgs(args: seq<Arg>) returns (sorted: seq<Arg>)
    ensures sorted == Only(args, Required) + Only(args, Optional)
  {
    var flags := Only(args, Optional);
    var rest := RemoveAll(args, Optional);
    rest := RemoveAll(rest, FlagsWord);
    sorted := rest + flags;
    Remainder(args);
  }

  lemma {:induction false} Remainder(args: seq<Arg>)
    ensures Except(Except(args, Optional), FlagsWord) == Only(args, Required)
  {
    if args != [] {
      Remainder(args[1..]);
      var rest := Except(args[1..], Optional);
      match args[0].sort {
        case Optional => assert Except(args, Optional) == rest;
        case _ =>
          assert Except(args, Optional) == [args[0]] + rest;
          assert ([args[0]] + rest)[1..] == rest;
      }
    }
  }

  /** Nothing is lost but the flags words. */
  lemma {:induction false} NothingLost(args: seq<Arg>)
    ensures multiset(Only(args, Required) + Only(args, Optional)) + multiset(Only(args, FlagsWord)) == multiset(args)
  {
    if args != [] {
      NothingLost(args[1..]);
      assert args == [args[0]] + args[1..];
    }
  }
}
