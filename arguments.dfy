/** The command-line checks and the node list built at the start of `main`. */
module Arguments {

  /** The job parameters: the query, the data directory and the cluster nodes. */
  datatype Config = Config(query: string, directory: string, nodes: seq<string>)

  /** A configuration, or the message `usage` prints before it throws. */
  datatype Parsed = Parsed(config: Config) | Usage(message: string)

  /**
   * At least three arguments are required; otherwise `usage` throws with
   * the message for the case.  The node names are the arguments after the
   * second, in order.
   */
  method ParseArgs(args: seq<string>) returns (r: Parsed)
    ensures |args| < 2 ==> r == Usage("Invalid number of arguments.")
    ensures |args| == 2 ==> r == Usage("Missing Node names.")
    ensures |args| >= 3 ==> r.Parsed? && r.config.query == args[0] && r.config.directory == args[1]
    ensures |args| >= 3 ==> |r.config.nodes| == |args| - 2
    ensures |args| >= 3 ==> forall i :: 0 <= i < |args| - 2 ==> r.config.nodes[i] == args[i + 2]
  {
    if |args| < 2 {
      return Usage("Invalid number of arguments.");
    } else if |args| == 2 {
      return Usage("Missing Node names.");
    }
    var query := args[0];
    var directory := args[1];
    var nodes := new string[|args| - 2];
    for i := 0 to |args| - 2
      invariant forall j :: 0 <= j < i ==> nodes[j] == args[j + 2]
    {
      nodes[i] := args[i + 2];
    }
    return Parsed(Config(query, directory, nodes[..]));
  }
}
