/** Making strings: one object for each content. */
module Interning {
  import opened Types
  import opened Values
  import opened Hashing
  import opened Strings
  import opened StringTables

  const BACKSLASH: byte := 0x5C
  const QUOTE: byte := 0x22
  const NEWLINE: byte := 0x0A
  const TAB: byte := 0x09
  const LETTER_N: byte := 0x6E
  const LETTER_T: byte := 0x74

  /** What a backslash and the byte after it stand for; an unknown pair stands for itself. */
  function Escaped(b: byte): (r: Text)
    ensures 1 <= |r| <= 2
  {
    if b == BACKSLASH || b == QUOTE then [b]
    else if b == LETTER_N then [NEWLINE]
    else if b == LETTER_T then [TAB]
    else [BACKSLASH, b]
  }

  /** The content that the source text of a string literal stands for.  A backslash at the end stands for itself. */
  function Unescape(s: Text): (r: Text)
    ensures |r| <= |s|
  {
    if s == [] then []
    else if s[0] != BACKSLASH then [s[0]] + Unescape(s[1..])
    else if |s| == 1 then [BACKSLASH]
    else Escaped(s[1]) + Unescape(s[2..])
  }

  /** No backslash of the text is followed by another one (0x5C), a quote (0x22), n (0x6E) or t (0x74). */
  predicate NoEscapes(s: Text) {
    forall i :: 0 <= i < |s| - 1 && s[i] == 0x5C ==>
      s[i + 1] != 0x5C && s[i + 1] != 0x22 && s[i + 1] != 0x6E && s[i + 1] != 0x74
  }

  /** A text without escapes stands for itself, also behind an unknown one: a backslash stays, and the byte after it. */
  lemma {:induction false} UnescapeVerbatim(s: Text)
    requires NoEscapes(s)
    ensures Unescape(s) == s
  {
    if s != [] {
      if s[0] == 0x5C && |s| > 1 {
        UnescapeVerbatim(s[2..]);
        assert s == [s[0], s[1]] + s[2..];
      } else {
        UnescapeVerbatim(s[1..]);
        assert s == [s[0]] + s[1..];
      }
    }
  }

  /** Only then: the first escape takes a byte less. */
  lemma {:induction false} EscapesShorten(s: Text)
    requires !NoEscapes(s)
    ensures |Unescape(s)| < |s|
  {
    var i :| 0 <= i < |s| - 1 && s[i] == 0x5C && (s[i + 1] == 0x5C || s[i + 1] == 0x22 || s[i + 1] == 0x6E || s[i + 1] == 0x74);
    if s[0] != 0x5C {
      assert s[1..][i - 1] == s[i] && s[1..][i] == s[i + 1];
      EscapesShorten(s[1..]);
    } else if s[1] != 0x5C && s[1] != 0x22 && s[1] != 0x6E && s[1] != 0x74 {
      assert i >= 2 && s[2..][i - 2] == s[i] && s[2..][i - 1] == s[i + 1];
      EscapesShorten(s[2..]);
    }
  }

  /** The escapes, with their bytes: a backslash and a quote stand for themselves, n for a line feed, t for a tab. */
  lemma EscapesMean(t: Text)
    ensures Unescape([0x5C, 0x5C] + t) == [0x5C] + Unescape(t) && Unescape([0x5C, 0x22] + t) == [0x22] + Unescape(t)
    ensures Unescape([0x5C, 0x6E] + t) == [0x0A] + Unescape(t) && Unescape([0x5C, 0x74] + t) == [0x09] + Unescape(t)
  {
    assert ([0x5C, 0x5C] + t)[2..] == t && ([0x5C, 0x22] + t)[2..] == t;
    assert ([0x5C, 0x6E] + t)[2..] == t && ([0x5C, 0x74] + t)[2..] == t;
  }

  /** A source text for the content. */
  function Escape(s: Text): Text {
    if s == [] then []
    else (if s[0] == BACKSLASH || s[0] == QUOTE then [BACKSLASH, s[0]]
          else if s[0] == NEWLINE then [BACKSLASH, LETTER_N]
          else if s[0] == TAB then [BACKSLASH, LETTER_T]
          else [s[0]]) + Escape(s[1..])
  }

  /** Every content has a source text that stands for it. */
  lemma {:induction false} UnescapeEscape(s: Text)
    ensures Unescape(Escape(s)) == s
  {
    if s != [] {
      UnescapeEscape(s[1..]);
      var t := Escape(s);
      if t[0] == BACKSLASH {
        assert t[2..] == Escape(s[1..]) && Unescape(t) == Escaped(t[1]) + Unescape(t[2..]);
      } else {
        assert t[1..] == Escape(s[1..]);
      }
      assert s == [s[0]] + s[1..];
    }
  }

  lemma {:induction false} UnescapePlain(run: Text, rest: Text)
    requires forall i :: 0 <= i < |run| ==> run[i] != BACKSLASH
    ensures Unescape(run + rest) == run + Unescape(rest)
  {
    if run == [] {
      assert run + rest == rest;
    } else {
      UnescapePlain(run[1..], rest);
      assert (run + rest)[1..] == run[1..] + rest;
      assert run == [run[0]] + run[1..];
    }
  }

  /** Copies chars to content: runs of plain bytes whole, and what each escape stands for. */
  method UnescapeInto(chars: Text, content: array<byte>) returns (writeIndex: nat)
    requires content.Length >= |chars|
    modifies content
    ensures writeIndex <= |chars| && content[..writeIndex] == Unescape(chars)
  {
    writeIndex := 0;
    var readIndex: nat := 0;
    assert chars[0..] == chars && content[..0] == [];
    while readIndex < |chars|
      invariant writeIndex <= readIndex <= |chars|
      invariant content[..writeIndex] + Unescape(chars[readIndex..]) == Unescape(chars)
    {
      var start := readIndex;
      while readIndex < |chars| && chars[readIndex] != BACKSLASH
        invariant start <= readIndex <= |chars|
        invariant forall i :: start <= i < readIndex ==> chars[i] != BACKSLASH
      {
        readIndex := readIndex + 1;
      }
      writeIndex := CopyRun(chars, start, readIndex, content, writeIndex);
      if readIndex >= |chars| { break; }
      readIndex, writeIndex := CopyEscape(chars, readIndex, content, writeIndex);
    }
    assert chars[|chars|..] == [];
  }

  method MemCpy(content: array<byte>, at: nat, bytes: Text)
    requires at + |bytes| <= content.Length
    modifies content
    ensures content[..at + |bytes|] == old(content[..at]) + bytes
  {
    for i := 0 to |bytes|
      invariant content[..at + i] == old(content[..at]) + bytes[..i]
    {
      content[at + i] := bytes[i];
      assert bytes[..i + 1] == bytes[..i] + [bytes[i]];
      assert content[..at + (i + 1)] == content[..at + i] + [bytes[i]];
    }
    assert bytes[..|bytes|] == bytes;
  }

  lemma RunCopied(before: Text, chars: Text, start: nat, end: nat)
    requires start <= end <= |chars| && forall i :: start <= i < end ==> chars[i] != BACKSLASH
    ensures before + Unescape(chars[start..]) == before + chars[start..end] + Unescape(chars[end..])
  {
    var run := chars[start..end];
    UnescapePlain(run, chars[end..]);
    assert chars[start..] == run + chars[end..];
    hide Unescape;
    assert before + (run + Unescape(chars[end..])) == before + run + Unescape(chars[end..]);
  }

  method CopyRun(chars: Text, start: nat, end: nat, content: array<byte>, writeIndex: nat) returns (w: nat)
    requires start <= end <= |chars| <= content.Length && writeIndex <= start
    requires forall i :: start <= i < end ==> chars[i] != BACKSLASH
    requires content[..writeIndex] + Unescape(chars[start..]) == Unescape(chars)
    modifies content
    ensures w <= end && content[..w] + Unescape(chars[end..]) == Unescape(chars)
  {
    hide Unescape;
    RunCopied(content[..writeIndex], chars, start, end);
    MemCpy(content, writeIndex, chars[start..end]);
    w := writeIndex + (end - start);
  }

  lemma EscapeCopied(before: Text, chars: Text, i: nat)
    requires i < |chars| && chars[i] == BACKSLASH
    ensures i + 1 < |chars| ==>
              before + Unescape(chars[i..]) == before + Escaped(chars[i + 1]) + Unescape(chars[i + 2..])
    ensures i + 1 == |chars| ==> before + Unescape(chars[i..]) == before + [BACKSLASH] + Unescape(chars[i + 1..])
  {
    var text := chars[i..];
    if i + 1 < |chars| {
      assert text[1] == chars[i + 1] && text[2..] == chars[i + 2..];
      assert Unescape(text) == Escaped(chars[i + 1]) + Unescape(chars[i + 2..]);
    } else {
      assert text == [BACKSLASH] && chars[i + 1..] == [];
    }
  }

  /** Writes what a pair of a backslash and b stands for. */
  method WriteEscaped(b: byte, content: array<byte>, at: nat) returns (w: nat)
    requires at + 2 <= content.Length
    modifies content
    ensures w <= at + 2 && content[..w] == old(content[..at]) + Escaped(b)
  {
    w := at;
    if b == BACKSLASH || b == QUOTE {
      content[w], w := b, w + 1;
    } else if b == LETTER_N {
      content[w], w := NEWLINE, w + 1;
    } else if b == LETTER_T {
      content[w], w := TAB, w + 1;
    } else {
      content[w], content[w + 1], w := BACKSLASH, b, w + 2;
    }
  }

  method CopyEscape(chars: Text, readIndex: nat, content: array<byte>, writeIndex: nat) returns (r: nat, w: nat)
    requires writeIndex <= readIndex < |chars| <= content.Length && chars[readIndex] == BACKSLASH
    requires content[..writeIndex] + Unescape(chars[readIndex..]) == Unescape(chars)
    modifies content
    ensures readIndex < r <= |chars| && w <= r
    ensures content[..w] + Unescape(chars[r..]) == Unescape(chars)
  {
    hide Unescape, Escaped;
    EscapeCopied(content[..writeIndex], chars, readIndex);
    r := readIndex + 1;
    if r < |chars| {
      w := WriteEscaped(chars[r], content, writeIndex);
      r := r + 1;
    } else {
      MemCpy(content, writeIndex, [BACKSLASH]);
      w := writeIndex + 1;
    }
  }

  /** s is the one interned string with this content; it was interned before, unless no string had the content. */
  twostate predicate IsInterned(strings: StringTable, new s: ObjString, text: Text)
    reads strings
  {
    && s in strings.contents && s.chars == text
    && (if (forall t :: t in old(strings.contents) ==> t.chars != text)
        then fresh(s) && strings.contents == old(strings.contents)[s := UINT32_MAX]
        else strings.contents == old(strings.contents))
  }

  method InternNew(strings: StringTable, text: Text, hash: Word) returns (s: ObjString)
    requires strings.Valid() && hash == Murmur(text) && forall t :: t in strings.contents ==> t.chars != text
    modifies strings, strings.entries
    ensures strings.Valid() && IsInterned(strings, s, text)
    ensures strings.entries == old(strings.entries) || fresh(strings.entries)
  {
    hide Murmur;
    s := new ObjString(text, hash);
    var _ := strings.SetString(s);
  }

  /** The interned string for the content of a source text, or of an identifier, which has no escapes. */
  method CopyString(strings: StringTable, chars: Text, escapeChars: bool) returns (s: ObjString)
    requires strings.Valid()
    modifies strings, strings.entries
    ensures strings.Valid() && IsInterned(strings, s, if escapeChars then Unescape(chars) else chars)
  {
    hide Murmur;
    var text := chars;
    if escapeChars {
      var content := new byte[|chars|];
      var writeIndex := UnescapeInto(chars, content);
      text := content[..writeIndex];
    }
    var hash := MurmurHash64Bits(text);
    var found := strings.FindString(text, hash);
    if found != null { return found; }
    s := InternNew(strings, text, hash);
  }

  /** The interned string for the concatenation, which is hashed and looked for in its two segments. */
  method ConnectString(strings: StringTable, a: ObjString, b: ObjString) returns (s: ObjString)
    requires strings.Valid()
    modifies strings, strings.entries
    ensures strings.Valid() && IsInterned(strings, s, a.chars + b.chars)
  {
    hide Murmur, StringTable.Valid, HashStream.Valid;
    var stream := new HashStream.Begin(|a.chars| + |b.chars|);
    stream.Update(a.chars);
    stream.Update(b.chars);
    assert stream.fed == a.chars + b.chars;
    var hash := stream.Finalize();
    var interned := strings.FindConcatString(a.chars, b.chars, hash);
    if interned != null { return interned; }
    s := InternNew(strings, a.chars + b.chars, hash);
  }
}
