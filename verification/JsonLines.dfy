/** The JSON line splitter of eventfs-protocol/src/json.rs. A payload is its decoded text;
    whether a line is JSON is never inspected here, callers carry that as a predicate. */
module JsonLines {
  import opened Text

  type Bytes = string

  /** `char::is_whitespace`. */
  predicate IsWhitespace(c: char) {
    || '\U{9}' <= c <= '\U{D}'
    || c == ' ' || c == '\U{85}' || c == '\U{A0}' || c == '\U{1680}'
    || '\U{2000}' <= c <= '\U{200A}'
    || c == '\U{2028}' || c == '\U{2029}' || c == '\U{202F}' || c == '\U{205F}' || c == '\U{3000}'
  }

  function TrimStart(s: string): (t: string)
    ensures t != "" ==> !IsWhitespace(t[0])
    ensures forall c :: c in t ==> c in s
  {
    if s == "" then "" else if IsWhitespace(s[0]) then TrimStart(s[1..]) else s
  }

  function TrimEnd(s: string): (t: string)
    ensures t <= s
    ensures t != "" ==> !IsWhitespace(t[|t| - 1])
  {
    if s == "" then "" else if IsWhitespace(s[|s| - 1]) then TrimEnd(s[..|s| - 1]) else s
  }

  /** `str::trim`. */
  function Trim(s: string): (t: string)
    ensures Trimmed(t)
    ensures forall c :: c in t ==> c in s
  {
    TrimEnd(TrimStart(s))
  }

  predicate Trimmed(s: string) {
    s != "" ==> !IsWhitespace(s[0]) && !IsWhitespace(s[|s| - 1])
  }

  /** What a published line looks like: non-empty, trimmed, on one line. */
  predicate IsLine(s: string) {
    s != "" && Trimmed(s) && '\n' !in s
  }

  function KeepLines(parts: seq<string>): (lines: seq<string>)
    requires Solid(parts, '\n')
    ensures forall i :: 0 <= i < |lines| ==> IsLine(lines[i])
  {
    if parts == [] then []
    else
      var line := Trim(parts[0]);
      (if line == "" then [] else [line]) + KeepLines(parts[1..])
  }

  /** `json_lines`: `str::lines` also strips one carriage return before each newline and drops an
      empty last line, both of which trimming and dropping blank lines already do. */
  function Lines(bytes: Bytes): (lines: seq<string>)
    ensures forall i :: 0 <= i < |lines| ==> IsLine(lines[i])
  {
    KeepLines(Split(bytes, '\n'))
  }
}
