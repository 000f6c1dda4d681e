/** The byte length of text: the counting loop of packages/input-provider/src/keyboard.ts against
    the UTF-8 encoding (section 3 of RFC 3629) of the UTF-16 string (section 2 of RFC 2781). */
module Utf8 {
  import opened Common

  type CodeUnit = n: nat | n < 0x1_0000

  type Byte = n: nat | n < 0x100

  type Scalar = n: nat | n < 0x11_0000

  type Text = seq<CodeUnit>

  const MAX_TEXT_INPUT_BYTES := 4096

  predicate IsHigh(u: CodeUnit) { 0xD800 <= u <= 0xDBFF }

  predicate IsLow(u: CodeUnit) { 0xDC00 <= u <= 0xDFFF }

  predicate StartsWithPair(s: Text) { |s| >= 2 && IsHigh(s[0]) && IsLow(s[1]) }

  /** Every surrogate is part of a pair, high one first. */
  predicate WellFormed(s: Text) {
    if s == [] then true
    else if StartsWithPair(s) then WellFormed(s[2..])
    else !IsHigh(s[0]) && !IsLow(s[0]) && WellFormed(s[1..])
  }

  function Pair(high: CodeUnit, low: CodeUnit): Scalar
    requires IsHigh(high) && IsLow(low)
  {
    var h: int, l: int := high, low;
    0x1_0000 + (h - 0xD800) * 0x400 + (l - 0xDC00)
  }

  /** The scalar values of a string; a surrogate without its partner stands for U+FFFD, as it
      does for every encoder. */
  function Scalars(s: Text): seq<Scalar> {
    if s == [] then []
    else if StartsWithPair(s) then [Pair(s[0], s[1])] + Scalars(s[2..])
    else [if IsHigh(s[0]) || IsLow(s[0]) then 0xFFFD else s[0]] + Scalars(s[1..])
  }

  function EncodeScalar(c: Scalar): seq<Byte> {
    if c < 0x80 then [c]
    else if c < 0x800 then [0xC0 + c / 0x40, 0x80 + c % 0x40]
    else if c < 0x1_0000 then [0xE0 + c / 0x1000, 0x80 + c / 0x40 % 0x40, 0x80 + c % 0x40]
    else [0xF0 + c / 0x4_0000, 0x80 + c / 0x1000 % 0x40, 0x80 + c / 0x40 % 0x40, 0x80 + c % 0x40]
  }

  function EncodeAll(cs: seq<Scalar>): seq<Byte> {
    if cs == [] then [] else EncodeScalar(cs[0]) + EncodeAll(cs[1..])
  }

  /** What `TextEncoder` makes of the string. */
  function Encoded(s: Text): seq<Byte> { EncodeAll(Scalars(s)) }

  /** One round of the loop at the head of `s`: what it adds, and how many units it passes. */
  function Round(s: Text): (nat, nat)
    requires s != []
  {
    if s[0] < 0x80 then (1, 1)
    else if s[0] < 0x800 then (2, 1)
    else if IsHigh(s[0]) then (4, 2)
    else (3, 1)
  }

  function Rest(s: Text): (r: Text)
    requires s != []
    ensures |r| < |s|
  {
    if Round(s).1 <= |s| then s[Round(s).1..] else []
  }

  function Counted(s: Text): nat
    decreases |s|
  {
    if s == [] then 0 else Round(s).0 + Counted(Rest(s))
  }

  method Utf8ByteLength(text: Text) returns (bytes: nat)
    ensures bytes == Counted(text)
    ensures WellFormed(text) ==> bytes == |Encoded(text)|
  {
    bytes := 0;
    var i := 0;
    while i < |text|
      invariant 0 <= i
      invariant bytes + Counted(if i <= |text| then text[i..] else []) == Counted(text)
    {
      var code := text[i];
      ghost var rest := text[i..];
      if code < 0x80 {
        bytes := bytes + 1;
      } else if code < 0x800 {
        bytes := bytes + 2;
      } else if 0xD800 <= code <= 0xDBFF {
        bytes := bytes + 4;
        i := i + 1;
      } else {
        bytes := bytes + 3;
      }
      i := i + 1;
      assert Rest(rest) == if i <= |text| then text[i..] else [];
    }
    if WellFormed(text) { CountsWellFormed(text); }
  }

  lemma EncodedHead(s: Text)
    requires s != []
    ensures if StartsWithPair(s) then |Encoded(s)| == 4 + |Encoded(s[2..])|
            else if IsHigh(s[0]) || IsLow(s[0]) then |Encoded(s)| == 3 + |Encoded(s[1..])|
            else |Encoded(s)| == Round(s).0 + |Encoded(s[1..])|
  {
    assert Scalars(s)[1..] == Scalars(if StartsWithPair(s) then s[2..] else s[1..]);
  }

  /** On well-formed text the loop counts exactly the bytes of the encoding. */
  lemma {:induction false} CountsWellFormed(s: Text)
    requires WellFormed(s)
    ensures Counted(s) == |Encoded(s)|
  {
    if s != [] {
      EncodedHead(s);
      CountsWellFormed(if StartsWithPair(s) then s[2..] else s[1..]);
    }
  }

  // ---------------------------------------------------------------- concatenation

  /** The loop ends at the end of the text and not one past it. */
  predicate EndsOnTime(s: Text) {
    s == [] || (Round(s).1 <= |s| && EndsOnTime(Rest(s)))
  }

  lemma {:induction false} WellFormedEndsOnTime(s: Text)
    requires WellFormed(s)
    ensures EndsOnTime(s)
  {
    if s != [] { WellFormedEndsOnTime(if StartsWithPair(s) then s[2..] else s[1..]); }
  }

  lemma {:induction false} CountedConcat(s: Text, t: Text)
    ensures Counted(s + t) == Counted(s) + Counted(if EndsOnTime(s) || t == [] then t else t[1..])
    decreases |s|
  {
    hide Round, Rest;
    if s == [] {
      assert s + t == t;
    } else {
      RoundConcat(s, t);
      if Round(s).1 <= |s| {
        CountedConcat(Rest(s), t);
      } else {
        assert Rest(s) == [] by { RestEmpty(s); }
      }
    }
  }

  lemma RoundConcat(s: Text, t: Text)
    requires s != []
    ensures Round(s + t) == Round(s) && s + t != []
    ensures Rest(s + t) == if Round(s).1 <= |s| then Rest(s) + t else if t == [] then t else t[1..]
  {
  }

  lemma RestEmpty(s: Text)
    requires s != [] && Round(s).1 > |s|
    ensures Rest(s) == []
  {
  }

  /** The count is additive, whatever follows, exactly for texts at whose end the loop arrives on
      time; in particular for well-formed ones. */
  lemma AdditiveExactly(s: Text)
    ensures EndsOnTime(s) <==> forall t :: Counted(s + t) == Counted(s) + Counted(t)
    ensures WellFormed(s) ==> EndsOnTime(s)
  {
    if EndsOnTime(s) {
      forall t ensures Counted(s + t) == Counted(s) + Counted(t) {
        CountedConcat(s, t);
      }
    } else {
      var t: Text := [0x41];
      CountedConcat(s, t);
      assert Counted(t) == 1 && t[1..] == [];
      assert Counted(s + t) != Counted(s) + Counted(t);
    }
    if WellFormed(s) { WellFormedEndsOnTime(s); }
  }

  // ---------------------------------------------------------------- ill-formed text

  /** How many bytes of its encoding a unit takes beyond its first. */
  function Beyond(u: CodeUnit): nat { if u < 0x80 then 0 else if u < 0x800 then 1 else 2 }

  /** Bytes that never get counted: those of the units that the loop passes over behind a high
      surrogate without its partner, beyond the first byte of each. A passed high surrogate that
      does have its partner hides none, since the partner is then counted by itself. */
  function Hidden(s: Text): nat
    decreases |s|
  {
    if |s| < 2 then 0
    else if !IsHigh(s[0]) then Hidden(s[1..])
    else (if IsLow(s[1]) || StartsWithPair(s[1..]) then 0 else Beyond(s[1])) + Hidden(s[2..])
  }

  /** One byte too many is counted when the loop runs past a high surrogate at the very end. */
  function Dangling(s: Text): nat { if EndsOnTime(s) then 0 else 1 }

  /** For every text: what is counted and what is hidden make up the encoding and the byte too many. */
  lemma {:induction false} CountIsOff(s: Text)
    ensures Counted(s) + Hidden(s) == |Encoded(s)| + Dangling(s)
    decreases |s|
  {
    hide Encoded;
    if s == [] {
      NothingEncoded();
    } else if !IsHigh(s[0]) {
      EncodedHead(s);
      CountIsOff(s[1..]);
    } else if |s| == 1 {
      EncodedHead(s);
      NothingEncoded();
    } else {
      SurrogateStep(s);
      CountIsOff(s[2..]);
    }
  }

  lemma SurrogateStep(s: Text)
    requires |s| >= 2 && IsHigh(s[0])
    ensures |Encoded(s)| == 4 + |Encoded(s[2..])| + Hidden(s) - Hidden(s[2..])
  {
    hide Encoded;
    EncodedHead(s);
    if !IsLow(s[1]) {
      EncodedHead(s[1..]);
      if StartsWithPair(s[1..]) {
        EncodedHead(s[2..]);
        assert s[1..][2..] == s[3..] == s[2..][1..];
      } else {
        assert s[1..][1..] == s[2..];
      }
    }
  }

  /** The count is the length of the encoding exactly when nothing is hidden and the text does
      not end in a dangling high surrogate, or when one hidden byte makes up for that. */
  lemma CountsExactly(s: Text)
    ensures Counted(s) == |Encoded(s)| <==> Hidden(s) == Dangling(s)
  {
    CountIsOff(s);
  }

  /** Well-formed text has neither; so has some ill-formed text. */
  lemma {:induction false} WellFormedHidesNothing(s: Text)
    requires WellFormed(s)
    ensures Hidden(s) == Dangling(s) == 0
    decreases |s|
  {
    if s != [] { WellFormedHidesNothing(if StartsWithPair(s) then s[2..] else s[1..]); }
  }

  /** On any text at all the count is at most one byte too high, and at least two thirds of
      the truth. */
  lemma CountedRange(s: Text)
    ensures Counted(s) <= |Encoded(s)| + 1
    ensures 2 * |Encoded(s)| <= 3 * Counted(s)
  {
    CountIsOff(s);
    HiddenRange(s);
  }

  /** Every hidden byte stands behind four counted ones, at most two of them. */
  lemma {:induction false} HiddenRange(s: Text)
    ensures 2 * Hidden(s) <= Counted(s)
    decreases |s|
  {
    if s != [] { HiddenRange(Rest(s)); }
  }

  lemma NothingEncoded()
    ensures Encoded([]) == []
  {
  }

  /** Ill-formed text can be counted right. */
  lemma SomeIllFormedCounts()
    ensures !WellFormed([0xD83D, 0x41]) && Counted([0xD83D, 0x41]) == |Encoded([0xD83D, 0x41])|
  {
    EncodedHead([0xD83D, 0x41]);
    EncodedHead([0x41]);
    assert [0xD83D, 0x41][1..] == [0x41];
  }

  /** Both bounds are met: a high surrogate at the end counts one byte too many, and one before a
      three-byte character hides two. */
  lemma IllFormedMiscounts()
    ensures Counted([0xD83D]) == |Encoded([0xD83D])| + 1
    ensures 3 * Counted([0xD83D, 0x20AC]) == 2 * |Encoded([0xD83D, 0x20AC])|
  {
    EncodedHead([0xD83D]);
    EncodedHead([0xD83D, 0x20AC]);
    EncodedHead([0x20AC]);
    assert [0xD83D, 0x20AC][1..] == [0x20AC];
  }

  // ---------------------------------------------------------------- typing text

  datatype TextOutcome = Typed | InvalidText | TextTooLarge | EmptyText

  /** `typeText`; the text is None when the payload is not a string. Text reaches the provider
      exactly when it is not empty and its encoding, corrected by what the count hides and adds,
      fits the limit; on well-formed text, and wherever the count is exact, nothing is to be
      corrected. No text whose encoding is longer than one and a half limits ever gets there. */
  method TypeText(text: Option<Text>) returns (outcome: TextOutcome, told: seq<Text>)
    ensures text.None? <==> outcome == InvalidText
    ensures told == if outcome == Typed then [text.value] else []
    ensures text.Some? ==>
              (outcome == Typed <==>
               && text.value != []
               && |Encoded(text.value)| + Dangling(text.value) <= MAX_TEXT_INPUT_BYTES + Hidden(text.value))
    ensures text.Some? && (WellFormed(text.value) || Hidden(text.value) == Dangling(text.value)) ==>
              (outcome == Typed <==> text.value != [] && |Encoded(text.value)| <= MAX_TEXT_INPUT_BYTES)
    ensures outcome == Typed ==> 2 * |Encoded(text.value)| <= 3 * MAX_TEXT_INPUT_BYTES
    ensures outcome == EmptyText <==> text == Some([])
  {
    told := [];
    if text.None? { return InvalidText, told; }
    var bytes := Utf8ByteLength(text.value);
    CountedRange(text.value);
    CountIsOff(text.value);
    if WellFormed(text.value) { WellFormedHidesNothing(text.value); }
    if bytes > MAX_TEXT_INPUT_BYTES { return TextTooLarge, told; }
    if |text.value| == 0 { return EmptyText, told; }
    return Typed, [text.value];
  }
}
