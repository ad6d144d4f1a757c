/** Argument selection of internal/utils/utils.go, with `os.Args` as a parameter. */
module Utils {

  /** ParseArgs: the user's arguments (program name dropped), or the current directory when there are none. */
  function ParseArgs(args: seq<string>): (dirs: seq<string>)
    ensures |dirs| >= 1
    ensures |args| < 2 ==> dirs == ["."]
    ensures |args| >= 2 ==> |dirs| == |args| - 1
    ensures |args| >= 2 ==> forall i :: 0 <= i < |dirs| ==> dirs[i] == args[i + 1]
  {
    if |args| < 2 then ["."] else args[1..]
  }

  /** Given a program name and the user's arguments, ParseArgs gives those arguments back, or `["."]` if there are none. */
  lemma ParseArgsRecoversUserArgs(program: string, user: seq<string>)
    ensures ParseArgs([program] + user) == if |user| == 0 then ["."] else user
  {
  }
}
