/** Text as lines: trimming, splitting and joining. */
module TextLines {
  predicate Blank(c: char) {
    c in " \t\n\r"
  }

  function Strip(s: string): string {
    if s != "" && Blank(s[0]) then Strip(s[1..])
    else if s != "" && Blank(s[|s| - 1]) then Strip(s[..|s| - 1])
    else s
  }

  predicate Trim(s: string) {
    s != "" && Strip(s) == s
  }

  lemma {:induction false} StripEnds(s: string)
    ensures var t := Strip(s); t != "" ==> !Blank(t[0]) && !Blank(t[|t| - 1])
    ensures s == "" || (!Blank(s[0]) && !Blank(s[|s| - 1])) ==> Strip(s) == s
  {
    if s != "" && Blank(s[0]) {
      StripEnds(s[1..]);
    } else if s != "" && Blank(s[|s| - 1]) {
      StripEnds(s[..|s| - 1]);
    }
  }

  function Join(lines: seq<string>): string {
    if lines == [] then ""
    else if |lines| == 1 then lines[0]
    else lines[0] + "\n" + Join(lines[1..])
  }

  function SplitLines(s: string): seq<string> {
    if s == "" then [""]
    else
      var rest := SplitLines(s[1..]);
      if s[0] == '\n' then [""] + rest
      else if rest == [] then [[s[0]]]
      else [[s[0]] + rest[0]] + rest[1..]
  }

  /** Every CR LF becomes LF. */
  function Normalize(s: string): string {
    if s == "" then ""
    else if |s| >= 2 && s[0] == '\r' && s[1] == '\n' then "\n" + Normalize(s[2..])
    else [s[0]] + Normalize(s[1..])
  }
}
