/** ASCII lower-casing, the identity used for names and directories on case-insensitive filesystems. */
module CaseFolding {

  function Lower(c: char): char {
    if 'A' <= c <= 'Z' then c + 32 as char else c
  }

  function Lowered(s: string): string {
    seq(|s|, i requires 0 <= i < |s| => Lower(s[i]))
  }

  function LoweredPath(p: seq<string>): seq<string> {
    seq(|p|, i requires 0 <= i < |p| => Lowered(p[i]))
  }
}
