/** The lucky-commit prefix check of internal/git/lucky.go: a prefix must be
    non-empty, at most LuckyCommitMaxLen bytes long and, once lowercased,
    made of lowercase hexadecimal digits only. */
module LuckyPrefix {
  import opened Wrappers
  import opened GoStrings
  import Consts

  datatype LuckyError = ErrLuckyPrefixEmpty | ErrLuckyPrefixTooLong | ErrLuckyPrefixInvalid

  predicate IsLowerHex(c: char) {
    ('0' <= c <= '9') || ('a' <= c <= 'f')
  }

  predicate AllLowerHex(s: string) {
    forall i :: 0 <= i < |s| ==> IsLowerHex(s[i])
  }

  /** The outcome of the check: the three errors in the order they are tested,
      otherwise the lowercased prefix. */
  function Check(prefix: string): Result<string, LuckyError> {
    if prefix == [] then Failure(ErrLuckyPrefixEmpty)
    else if ByteLen(prefix) > Consts.LuckyCommitMaxLen then Failure(ErrLuckyPrefixTooLong)
    else if !AllLowerHex(ToLowerAscii(prefix)) then Failure(ErrLuckyPrefixInvalid)
    else Success(ToLowerAscii(prefix))
  }

  /** The validator: the early returns and the scan over the lowered prefix. */
  method ValidateLuckyPrefix(prefix: string) returns (r: Result<string, LuckyError>)
    ensures r == Check(prefix)
  {
    if prefix == [] {
      return Failure(ErrLuckyPrefixEmpty);
    }
    if ByteLen(prefix) > Consts.LuckyCommitMaxLen {
      return Failure(ErrLuckyPrefixTooLong);
    }
    var lowered := ToLowerAscii(prefix);
    for i := 0 to |lowered|
      invariant AllLowerHex(lowered[..i])
    {
      var c := lowered[i];
      if !(('0' <= c <= '9') || ('a' <= c <= 'f')) {
        return Failure(ErrLuckyPrefixInvalid);
      }
    }
    assert lowered[..|lowered|] == lowered;
    return Success(lowered);
  }

  /** Each error arises exactly under its own condition, in the order empty,
      too long, invalid character; a success is the lowercased input. */
  lemma CheckOutcomes(prefix: string)
    ensures Check(prefix) == Failure(ErrLuckyPrefixEmpty) <==> prefix == []
    ensures Check(prefix) == Failure(ErrLuckyPrefixTooLong) <==>
      prefix != [] && ByteLen(prefix) > Consts.LuckyCommitMaxLen
    ensures Check(prefix) == Failure(ErrLuckyPrefixInvalid) <==>
      prefix != [] && ByteLen(prefix) <= Consts.LuckyCommitMaxLen
      && exists i :: 0 <= i < |prefix| && !IsLowerHex(ToLowerAscii(prefix)[i])
    ensures Check(prefix).Success? ==> Check(prefix).value == ToLowerAscii(prefix)
  {
  }

  /** A successful result is 1 to 12 lowercase hexadecimal digits. */
  lemma SuccessShape(prefix: string)
    requires Check(prefix).Success?
    ensures var v := Check(prefix).value;
      1 <= |v| <= Consts.LuckyCommitMaxLen && AllLowerHex(v)
  {
  }

  lemma LowerHexFixed(s: string)
    requires AllLowerHex(s)
    ensures ToLowerAscii(s) == s
  {
  }

  /** Checking a successful result again gives it back unchanged. */
  lemma Idempotent(prefix: string)
    requires Check(prefix).Success?
    ensures Check(Check(prefix).value) == Check(prefix)
  {
    var v := Check(prefix).value;
    LowerHexFixed(v);
    assert ByteLen(v) == ByteLen(prefix) by {
      ByteLenAscii(v);
      assert ToLowerAscii(prefix) == v;
      AsciiOfLower(prefix);
      ByteLenAscii(prefix);
    }
  }

  /** A prefix whose lowering is all hexadecimal digits is ASCII. */
  lemma AsciiOfLower(prefix: string)
    requires AllLowerHex(ToLowerAscii(prefix))
    ensures IsAscii(prefix)
  {
    forall i | 0 <= i < |prefix| ensures prefix[i] < '\U{80}' {
      assert IsLowerHex(ToLowerAscii(prefix)[i]);
    }
  }

  /** A short ASCII prefix whose lowering is all hexadecimal passes as its lowering. */
  lemma Accepted(prefix: string)
    requires prefix != [] && |prefix| <= Consts.LuckyCommitMaxLen && IsAscii(prefix)
    requires AllLowerHex(ToLowerAscii(prefix))
    ensures Check(prefix) == Success(ToLowerAscii(prefix))
  {
    ByteLenAscii(prefix);
  }

  /** The accepted cases of lucky_test.go, including the twelve-character one. */
  lemma AcceptedVectors(prefix: string, want: string)
    requires (prefix, want) in [("abc123", "abc123"), ("ABC123", "abc123"),
                                ("AbC123", "abc123"), ("1234567890ab", "1234567890ab")]
    ensures Check(prefix) == Success(want)
  {
    assert ToLowerAscii(prefix) == want by {
      forall i | 0 <= i < |want| ensures ToLowerAscii(prefix)[i] == want[i] { }
    }
    Accepted(prefix);
  }

  lemma EmptyVector()
    ensures Check("") == Failure(ErrLuckyPrefixEmpty)
  {
  }

  lemma TooLongVector(prefix: string)
    requires prefix == "12345678901234567"
    ensures Check(prefix) == Failure(ErrLuckyPrefixTooLong)
  {
    assert |prefix| == 17;
  }

  lemma InvalidVectors()
    ensures Check("xyz123") == Failure(ErrLuckyPrefixInvalid)
    ensures Check("abc 123") == Failure(ErrLuckyPrefixInvalid)
  {
    assert !IsLowerHex(ToLowerAscii("xyz123")[0]);
    assert !IsLowerHex(ToLowerAscii("abc 123")[3]);
  }

  /** The sixteen zeros of lucky_test.go exceed the twelve-byte limit, so the
      code rejects them as too long. */
  lemma SixteenZerosTooLong(prefix: string)
    requires prefix == "0000000000000000"
    ensures Check(prefix) == Failure(ErrLuckyPrefixTooLong)
  {
    assert |prefix| == 16;
  }
}
