/** The shift-by-ten cipher of Login/encryption.py: every code point moves
    ten places up (encryption) or down (decryption), wrapping round inside
    the printable range 32..127. */
module Encryption {
  import opened Wrappers
  import opened Text

  /** The printable range the cipher wraps inside. */
  const Low := 32
  const High := 127
  /** The shift. */
  const Shift := 10

  predicate Printable(c: int)
  {
    Low <= c <= High
  }

  predicate PrintableText(s: Text)
  {
    forall k | 0 <= k < |s| :: Printable(s[k])
  }

  /** `convert(c, encrypt)` (Login/encryption.py:12-32). */
  function Convert(c: CodePoint, encrypt: bool): CodePoint
  {
    var val := if encrypt then c + Shift else c - Shift;
    var val := if val < Low then High - (Low - 1 - val) else val;
    if val > High then Low - 1 + (val - High) else val
  }

  /** The result differs from the shifted code point by a multiple of the
      range's width 96, and a printable code point stays printable. */
  lemma ConvertWraps(c: CodePoint, encrypt: bool)
    ensures (Convert(c, encrypt) - (if encrypt then c + Shift else c - Shift)) % (High - Low + 1) == 0
    ensures Printable(c) ==> Printable(Convert(c, encrypt))
  {
  }

  /** Decryption undoes encryption on the printable range. */
  lemma DecryptEncrypt(c: CodePoint)
    requires Printable(c)
    ensures Convert(Convert(c, true), false) == c
  {
  }

  /** ... and encryption undoes decryption there. */
  lemma EncryptDecrypt(c: CodePoint)
    requires Printable(c)
    ensures Convert(Convert(c, false), true) == c
  {
  }

  /** What `string(s, encrypt)` returns: `s` converted code point by code
      point, the last one appended last. */
  function ConvertText(s: Text, encrypt: bool): (r: Text)
    ensures |r| == |s|
  {
    if s == [] then [] else ConvertText(s[..|s| - 1], encrypt) + [Convert(s[|s| - 1], encrypt)]
  }

  /** Each code point of the result is the converted code point of `s`. */
  lemma {:induction false} ConvertTextAt(s: Text, encrypt: bool, k: nat)
    requires k < |s|
    ensures ConvertText(s, encrypt)[k] == Convert(s[k], encrypt)
  {
    if k < |s| - 1 {
      ConvertTextAt(s[..|s| - 1], encrypt, k);
    }
  }

  /** A printable string converts to a printable string. */
  lemma ConvertTextPrintable(s: Text, encrypt: bool)
    requires PrintableText(s)
    ensures PrintableText(ConvertText(s, encrypt))
  {
    forall k | 0 <= k < |s|
      ensures Printable(ConvertText(s, encrypt)[k])
    {
      ConvertTextAt(s, encrypt, k);
      ConvertWraps(s[k], encrypt);
    }
  }

  /** `string(s, encrypt)` (Login/encryption.py:64-81): builds the result
      one converted code point at a time. */
  method StringConvert(s: Text, encrypt: bool) returns (converted: Text)
    ensures converted == ConvertText(s, encrypt)
  {
    converted := [];
    for i := 0 to |s|
      invariant converted == ConvertText(s[..i], encrypt)
    {
      assert s[..i + 1][..i] == s[..i];
      converted := converted + [Convert(s[i], encrypt)];
    }
    assert s[..|s|] == s;
  }

  /** Decrypting an encrypted printable string gives it back. */
  lemma {:induction false} TextDecryptEncrypt(s: Text)
    requires PrintableText(s)
    ensures ConvertText(ConvertText(s, true), false) == s
  {
    var r := ConvertText(ConvertText(s, true), false);
    ConvertTextPrintable(s, true);
    forall k | 0 <= k < |s|
      ensures r[k] == s[k]
    {
      ConvertTextAt(s, true, k);
      ConvertTextAt(ConvertText(s, true), false, k);
      DecryptEncrypt(s[k]);
    }
  }

  /** Encrypting a decrypted printable string gives it back. */
  lemma {:induction false} TextEncryptDecrypt(s: Text)
    requires PrintableText(s)
    ensures ConvertText(ConvertText(s, false), true) == s
  {
    var r := ConvertText(ConvertText(s, false), true);
    ConvertTextPrintable(s, false);
    forall k | 0 <= k < |s|
      ensures r[k] == s[k]
    {
      ConvertTextAt(s, false, k);
      ConvertTextAt(ConvertText(s, false), true, k);
      EncryptDecrypt(s[k]);
    }
  }

  /** Encryption is one-to-one on printable strings, so comparing encrypted
      passwords compares the passwords. */
  lemma EncryptInjective(s: Text, t: Text)
    requires PrintableText(s) && PrintableText(t)
    requires ConvertText(s, true) == ConvertText(t, true)
    ensures s == t
  {
    TextDecryptEncrypt(s);
    TextDecryptEncrypt(t);
  }

  /** `Stack` (Login/encryption.py:1-9): a list pushed and popped at its
      end. */
  class Stack<T> {
    var stack: seq<T>

    constructor()
      ensures stack == []
    {
      stack := [];
    }

    /** `push(item)` */
    method Push(item: T)
      modifies this
      ensures stack == old(stack) + [item]
    {
      stack := stack + [item];
    }

    /** `pop()`: the last item pushed, which leaves the stack; `None` stands
        for the `IndexError` of popping an empty stack, which changes
        nothing. */
    method Pop() returns (item: Option<T>)
      modifies this
      ensures old(stack) == [] ==> item == None && stack == []
      ensures old(stack) != [] ==> item == Some(old(stack)[|old(stack)| - 1]) && stack == old(stack)[..|old(stack)| - 1]
    {
      if stack == [] {
        return None;
      }
      item := Some(stack[|stack| - 1]);
      stack := stack[..|stack| - 1];
    }
  }

  /** A pop straight after a push returns the pushed item and leaves the
      stack as it was. */
  method PushThenPop<T>(st: Stack<T>, item: T) returns (popped: Option<T>)
    modifies st
    ensures popped == Some(item)
    ensures st.stack == old(st.stack)
  {
    st.Push(item);
    popped := st.Pop();
  }
}
