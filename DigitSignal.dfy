/**
 * The digit signal of an OCR reading (`num_length` and the strict digit
 * count of masker_v2.py), the choice between the grayscale and the
 * thresholded reading, and the three-way length classification.
 */
module DigitSignal {

  /** What `num_length` keeps: digits and the characters tesseract often reads digits as. */
  const SignalChars: set<char> :=
    {'0', '1', '2', '3', '4', '5', '6', '7', '8', '9',
     '?', 'T', 'B', 'a', 'A', 'Z', '$', 'e', 'g', 'i', 'G'}

  /** What the strict count keeps: `[0-9]`. */
  const DigitChars: set<char> := {'0', '1', '2', '3', '4', '5', '6', '7', '8', '9'}

  /** `re.sub('[^...]', '', s)`: the characters of `s` that lie in `alphabet`, in order. */
  function Keep(s: string, alphabet: set<char>): (r: string)
    ensures |r| <= |s|
    ensures forall i :: 0 <= i < |r| ==> r[i] in alphabet
  {
    if s == [] then []
    else
      var last := s[|s| - 1];
      Keep(s[..|s| - 1], alphabet) + (if last in alphabet then [last] else [])
  }

  /** The positions of `s` holding a character of `alphabet`. */
  function Positions(s: string, alphabet: set<char>): set<nat> {
    set i: nat | i < |s| && s[i] in alphabet
  }

  /** `num_length`: the number of positions of `s` holding a signal character. */
  function NumLength(s: string): (n: nat)
    ensures n == |Positions(s, SignalChars)|
  {
    KeepCountsPositions(s, SignalChars);
    |Keep(s, SignalChars)|
  }

  /** `len(re.sub('[^0-9]', '', s))`: the number of positions of `s` holding a digit. */
  function StrictDigitCount(s: string): (n: nat)
    ensures n == |Positions(s, DigitChars)|
  {
    KeepCountsPositions(s, DigitChars);
    |Keep(s, DigitChars)|
  }

  /** Filtering counts exactly the positions whose character is in the alphabet. */
  lemma {:induction false} KeepCountsPositions(s: string, alphabet: set<char>)
    ensures |Keep(s, alphabet)| == |Positions(s, alphabet)|
  {
    if s != [] {
      var n := |s| - 1;
      var init := s[..n];
      KeepCountsPositions(init, alphabet);
      if s[n] in alphabet {
        assert Positions(s, alphabet) == Positions(init, alphabet) + {n};
        assert n !in Positions(init, alphabet);
      } else {
        assert Positions(s, alphabet) == Positions(init, alphabet);
      }
    }
  }

  /** A larger alphabet keeps at least as many characters. */
  lemma {:induction false} KeepMonotone(s: string, small: set<char>, large: set<char>)
    requires small <= large
    ensures |Keep(s, small)| <= |Keep(s, large)|
  {
    if s != [] {
      KeepMonotone(s[..|s| - 1], small, large);
    }
  }

  /** Filtering distributes over concatenation. */
  lemma {:induction false} KeepConcat(a: string, b: string, alphabet: set<char>)
    ensures Keep(a + b, alphabet) == Keep(a, alphabet) + Keep(b, alphabet)
  {
    if b == [] {
      assert a + b == a;
    } else {
      var n := |b| - 1;
      KeepConcat(a, b[..n], alphabet);
      assert (a + b)[..|a + b| - 1] == a + b[..n];
      assert (a + b)[|a + b| - 1] == b[n];
    }
  }

  /**
   * The signal count never exceeds the length of the reading and is never
   * below its strict digit count.
   */
  lemma NumLengthBounds(s: string)
    ensures StrictDigitCount(s) <= NumLength(s) <= |s|
  {
    KeepMonotone(s, DigitChars, SignalChars);
  }

  /** `num_length` of a concatenation is the sum of the parts' counts. */
  lemma NumLengthConcat(a: string, b: string)
    ensures NumLength(a + b) == NumLength(a) + NumLength(b)
  {
    KeepConcat(a, b, SignalChars);
  }

  /**
   * `num_length` on two readings: "AB12?4" counts 6, since A and B are in the
   * confusable set, and "hello" counts 1, for its e.
   */
  lemma NumLengthExamples()
    ensures NumLength("AB12?4") == 6 && StrictDigitCount("AB12?4") == 3
    ensures NumLength("hello") == 1 && StrictDigitCount("hello") == 0
  {
    assert "AB12?4"[..5] == "AB12?";
    assert "AB12?"[..4] == "AB12";
    assert "AB12"[..3] == "AB1";
    assert "AB1"[..2] == "AB";
    assert "AB"[..1] == "A";
    assert "hello"[..4] == "hell";
    assert "hell"[..3] == "hel";
    assert "hel"[..2] == "he";
    assert "he"[..1] == "h";
  }

  /**
   * Line 134: the grayscale reading replaces the thresholded one only when it
   * has strictly more signal characters; a tie keeps the thresholded reading.
   */
  function Reconcile(gray: string, thresh: string): (s: string)
    ensures s == gray || s == thresh
    ensures NumLength(s) >= NumLength(gray) && NumLength(s) >= NumLength(thresh)
    ensures NumLength(gray) <= NumLength(thresh) ==> s == thresh
  {
    if NumLength(gray) > NumLength(thresh) then gray else thresh
  }

  /** The three outcomes of the length test. */
  datatype Label = Rejected | Confirmed | Pending

  /**
   * Lines 147-163: fewer than two real digits rejects; a signal length of 8 or
   * 11 to 13 confirms; any other length from 3 up to 11 waits for a neighbour;
   * everything else is rejected.
   */
  function Classify(s: string): (l: Label)
    ensures l == Confirmed <==> StrictDigitCount(s) >= 2 && NumLength(s) in {8, 11, 12, 13}
    ensures l == Pending <==> StrictDigitCount(s) >= 2 && NumLength(s) in {3, 4, 5, 6, 7, 9, 10}
  {
    var length := NumLength(s);
    if StrictDigitCount(s) < 2 then Rejected
    else if length == 8 || 11 <= length <= 13 then Confirmed
    else if 3 <= length < 12 then Pending
    else Rejected
  }

  /**
   * What is left over is rejected: too few real digits, a signal length of
   * exactly 2, or one of 14 or more. (A length below 2 cannot occur once two
   * real digits are present.)
   */
  lemma ClassifyRejected(s: string)
    ensures Classify(s) == Rejected <==>
              StrictDigitCount(s) < 2 || NumLength(s) == 2 || NumLength(s) >= 14
  {
    NumLengthBounds(s);
  }
}
