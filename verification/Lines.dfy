/** Lines of text put together with newlines. */
module Lines {
  const LF := '\n'

  function Join(lines: seq<string>): string {
    if lines == [] then []
    else if |lines| == 1 then lines[0]
    else lines[0] + [LF] + Join(lines[1..])
  }
}
