/** Strings kept in character buffers up to a terminating NUL. */
module CStrings {
  /** Text without a terminator inside it, as every C string is. */
  type CString = s: string | '\0' !in s

  /** The C string at the start of a buffer. */
  function Text(buf: seq<char>): string {
    if buf == [] || buf[0] == '\0' then "" else [buf[0]] + Text(buf[1..])
  }

  /** A buffer that holds `n` characters and then a NUL holds those characters. */
  lemma {:induction false} TextIsPrefix(buf: seq<char>, n: nat)
    requires n < |buf| && buf[n] == '\0' && '\0' !in buf[..n]
    ensures Text(buf) == buf[..n]
  {
    if n > 0 {
      assert buf[0] in buf[..n];
      assert buf[1..][..n - 1] == buf[..n][1..];
      TextIsPrefix(buf[1..], n - 1);
    }
  }

  /** A buffer with a NUL holds a string, ended by the first one. */
  lemma {:induction false} TextEnds(buf: seq<char>)
    requires '\0' in buf
    ensures |Text(buf)| < |buf| && buf[..|Text(buf)|] == Text(buf)
    ensures buf[|Text(buf)|] == '\0' && '\0' !in Text(buf)
  {
    if buf[0] != '\0' { TextEnds(buf[1..]); }
  }
}
