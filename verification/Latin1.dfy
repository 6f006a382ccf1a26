/** Bytes and Python's `str.encode("latin-1", "replace")`. */
module Latin1 {
  newtype byte = b: int | 0 <= b < 0x100
  type Bytes = seq<byte>

  function EncodeChar(c: char): byte {
    if c as int < 0x100 then c as int as byte else 63  // '?'
  }

  function Encode(s: string): (b: Bytes)
    ensures |b| == |s|
  {
    seq(|s|, i requires 0 <= i < |s| => EncodeChar(s[i]))
  }

  function DecodeByte(b: byte): char { b as int as char }

  function Decode(b: Bytes): (s: string)
    ensures |s| == |b|
    ensures forall i :: 0 <= i < |b| ==> s[i] == DecodeByte(b[i])
  {
    seq(|b|, i requires 0 <= i < |b| => DecodeByte(b[i]))
  }

  predicate IsLatin1(s: string) { forall i :: 0 <= i < |s| ==> s[i] as int < 0x100 }

  lemma EncodeAppend(s: string, t: string)
    ensures Encode(s + t) == Encode(s) + Encode(t)
  {
  }

  /** What is left of a text after encoding: every character outside Latin-1 has become a question mark. */
  function Image(s: string): (t: string)
    ensures |t| == |s|
    ensures forall i :: 0 <= i < |s| ==> t[i] == if s[i] as int < 0x100 then s[i] else '?'
  {
    Decode(Encode(s))
  }

  lemma ImageAppend(s: string, t: string)
    ensures Image(s + t) == Image(s) + Image(t)
  {
    hide Encode, Decode;
  }

  /** Encoding loses nothing exactly on Latin-1 text. */
  lemma DecodeEncode(s: string)
    ensures Image(s) == s <==> IsLatin1(s)
  {
    if Image(s) == s {
      forall i | 0 <= i < |s| ensures s[i] as int < 0x100 {
        assert s[i] == DecodeByte(EncodeChar(s[i]));
      }
    }
  }
}
