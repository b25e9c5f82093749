/** Character buffers and the C strings in them. */
module CStrings {

  const NUL: char := '\0'

  predicate NoNul(s: string) {
    NUL !in s
  }

  lemma NoNulConcat(a: string, b: string)
    requires NoNul(a) && NoNul(b)
    ensures NoNul(a + b)
  {
  }

  /** The string that a reader of the buffer sees. */
  function Terminated(s: seq<char>): string {
    if s == [] || s[0] == NUL then [] else [s[0]] + Terminated(s[1..])
  }

  lemma {:induction false} TerminatedIs(s: seq<char>, text: string)
    requires |text| < |s| && s[..|text|] == text && NoNul(text) && s[|text|] == NUL
    ensures Terminated(s) == text
  {
    if text != [] {
      assert s[0] == text[0] && s[1..][..|text[1..]|] == text[1..];
      TerminatedIs(s[1..], text[1..]);
    }
  }

  /** Prints a text at an offset and terminates it.  The caller must leave room for both. */
  method Sprintf(buffer: array<char>, at: nat, text: string) returns (printed: nat)
    requires at + |text| < buffer.Length
    modifies buffer
    ensures printed == |text|
    ensures buffer[..at + |text|] == old(buffer[..at]) + text
    ensures buffer[at + |text|] == NUL
  {
    printed := |text|;
    forall i | 0 <= i < |text| {
      buffer[at + i] := text[i];
    }
    buffer[at + |text|] := NUL;
  }
}
