/** The process the tool runs in: the lines typed at its prompts and its environment. */
module Console {
  import opened Wrappers

  /** The process the tool runs in: the lines still to be typed at its prompts, in
      order, and `os.environ`. */
  class Session {
    var input: seq<string>
    var environ: map<string, string>

    constructor (input: seq<string>, environ: map<string, string>)
      ensures this.input == input && this.environ == environ
    {
      this.input := input;
      this.environ := environ;
    }

    /** `input()` / `getpass()`: the next typed line, or None at end of input, where
        Python raises EOFError. */
    method ReadLine() returns (line: Option<string>)
      modifies this
      ensures environ == old(environ)
      ensures |old(input)| == 0 ==> line == None && input == old(input)
      ensures |old(input)| > 0 ==> line == Some(old(input)[0]) && input == old(input)[1..]
    {
      if |input| == 0 {
        return None;
      }
      line := Some(input[0]);
      input := input[1..];
    }
  }
}
