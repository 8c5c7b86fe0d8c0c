/**
 * The secure half of the buffer-overflow discussion program: the token read
 * into a `std::string` is cut to 15 chars and copied with `strcpy` into a
 * 16-byte buffer, next to another 16-byte buffer holding "DONOTOVERWRITE!".
 */
module SecureCopy {
  import opened SecureInput

  const BUFFER_SIZE: nat := 16

  /** "DONOTOVERWRITE!" and its terminating NUL. */
  const GUARD: seq<byte> := [68, 79, 78, 79, 84, 79, 86, 69, 82, 87, 82, 73, 84, 69, 33, 0]

  /** The C string held by `s`: everything before its first NUL. */
  function CString(s: seq<byte>): (r: seq<byte>)
    ensures |r| <= |s| && r == s[..|r|] && 0 !in r
    ensures |r| < |s| ==> s[|r|] == 0
  {
    if s == [] || s[0] == 0 then [] else [s[0]] + CString(s[1..])
  }

  /** `if (temp_input.length() >= 16) temp_input = temp_input.substr(0, 15);` */
  function FitToBuffer(token: seq<byte>): (r: seq<byte>)
    ensures r == Truncate(token, BUFFER_SIZE - 1)
  {
    if |token| >= BUFFER_SIZE then token[..BUFFER_SIZE - 1] else token
  }

  /** `strcpy(dst, src.c_str())`: copies the chars of `src` up to its first
      NUL, then the NUL, and nothing else. */
  method StrCpy(dst: array<byte>, src: seq<byte>) returns (copied: nat)
    requires |src| < dst.Length
    modifies dst
    ensures copied == |CString(src)| && copied < dst.Length
    ensures dst[..copied] == CString(src) && dst[copied] == 0
    ensures forall k :: copied < k < dst.Length ==> dst[k] == old(dst[k])
  {
    var terminated := src + [0];
    var i := 0;
    while terminated[i] != 0
      invariant 0 <= i <= |CString(src)| && src[..i] == CString(src)[..i]
      invariant dst[..i] == src[..i]
      invariant forall k :: i <= k < dst.Length ==> dst[k] == old(dst[k])
      decreases |src| - i
    {
      dst[i] := terminated[i];
      i := i + 1;
    }
    dst[i] := 0;
    copied := i;
  }

  /** The secure branch: the copy stays inside the 16-byte buffer, which
      then holds the fitted token up to its first NUL; the guard buffer next
      to it is untouched. */
  method SecureBranch(token: seq<byte>, secureBuffer: array<byte>, adjacent: array<byte>)
      returns (shown: seq<byte>)
    requires secureBuffer.Length == BUFFER_SIZE && adjacent[..] == GUARD
    requires secureBuffer != adjacent
    modifies secureBuffer
    ensures shown == CString(secureBuffer[..]) == CString(FitToBuffer(token))
    ensures forall k :: |shown| < k < BUFFER_SIZE ==> secureBuffer[k] == old(secureBuffer[k])
    ensures adjacent[..] == GUARD && CString(adjacent[..]) == GUARD[..15]
  {
    var tempInput := token;
    if |tempInput| >= BUFFER_SIZE {
      tempInput := tempInput[..BUFFER_SIZE - 1];
    }
    var copied := StrCpy(secureBuffer, tempInput);
    CStringOfTerminated(secureBuffer[..], copied);
    shown := CString(secureBuffer[..]);
    assert CString(GUARD) == GUARD[..15] by {
      CStringOfTerminated(GUARD, 15);
    }
  }

  /** A buffer whose first NUL is at `n` holds the C string of its first
      `n` bytes. */
  lemma {:induction false} CStringOfTerminated(s: seq<byte>, n: nat)
    requires n < |s| && s[n] == 0 && 0 !in s[..n]
    ensures CString(s) == s[..n]
  {
    if n > 0 {
      var t := s[1..];
      assert s[0] == s[..n][0];
      forall k | 0 <= k < n - 1 ensures t[k] != 0 {
        assert t[k] == s[..n][k + 1];
      }
      assert 0 !in t[..n - 1];
      CStringOfTerminated(t, n - 1);
      assert s[..n] == [s[0]] + t[..n - 1];
    }
  }

  /** The fitted token is at most 15 bytes, so with its NUL it fits the
      buffer; a token shorter than 16 is kept whole. */
  lemma FitToBufferBounds(token: seq<byte>)
    ensures |FitToBuffer(token)| <= BUFFER_SIZE - 1
    ensures |token| < BUFFER_SIZE ==> FitToBuffer(token) == token
    ensures |token| >= BUFFER_SIZE ==> FitToBuffer(token) == token[..BUFFER_SIZE - 1]
  {
  }
}
