/** Finding the end of a JSON number inside a longer text. */
module JsonNumber {
  predicate IsDigit(c: char) {
    '0' <= c <= '9'
  }

  // ----- section 6 of RFC 8259: number = [ minus ] int [ frac ] [ exp ] -----

  predicate Digits(s: string, i: nat, j: nat) {
    i <= j <= |s| && forall k :: i <= k < j ==> IsDigit(s[k])
  }

  predicate Minus(s: string, i: nat, j: nat) {
    j == i + 1 <= |s| && s[i] == '-'
  }

  /** zero / ( digit1-9 *DIGIT ) */
  predicate Int(s: string, i: nat, j: nat) {
    i < j <= |s| && ((s[i] == '0' && j == i + 1) || ('1' <= s[i] <= '9' && Digits(s, i + 1, j)))
  }

  /** decimal-point 1*DIGIT */
  predicate Frac(s: string, i: nat, j: nat) {
    i + 1 < j <= |s| && s[i] == '.' && Digits(s, i + 1, j)
  }

  /** e [ minus / plus ] 1*DIGIT */
  predicate Exp(s: string, i: nat, j: nat) {
    && i + 1 < j <= |s| && (s[i] == 'e' || s[i] == 'E')
    && (Digits(s, i + 1, j) || (i + 2 < j && (s[i + 1] == '+' || s[i + 1] == '-') && Digits(s, i + 2, j)))
  }

  /** The text from `i` to `j` is a number; `a`, `b` and `c` are where its parts meet. */
  predicate IsNumberWith(s: string, i: nat, a: nat, b: nat, c: nat, j: nat) {
    && (a == i || Minus(s, i, a))
    && Int(s, a, b)
    && (c == b || Frac(s, b, c))
    && (j == c || Exp(s, c, j))
  }

  ghost predicate IsNumber(s: string, i: nat, j: nat) {
    exists a, b, c :: IsNumberWith(s, i, a, b, c, j)
  }

  // ----- the scanner -----

  predicate EndOfDigits(s: string, j: nat) {
    j >= |s| || !IsDigit(s[j])
  }

  method SkipDigits(s: string, i: nat) returns (j: nat)
    requires i <= |s|
    ensures Digits(s, i, j) && EndOfDigits(s, j)
  {
    j := i;
    while j < |s| && IsDigit(s[j])
      invariant Digits(s, i, j)
    {
      j := j + 1;
    }
  }

  // What each part of the scan finds: the part as long as it can be.

  predicate GreedyInt(s: string, a: nat, b: nat) {
    Int(s, a, b) && (s[a] == '0' || EndOfDigits(s, b))
  }

  ghost predicate GreedyFrac(s: string, b: nat, c: nat) {
    if c == b then forall e: nat :: !Frac(s, b, e) else Frac(s, b, c) && EndOfDigits(s, c)
  }

  ghost predicate GreedyExp(s: string, c: nat, j: nat) {
    if j == c then forall e: nat :: !Exp(s, c, e) else Exp(s, c, j) && EndOfDigits(s, j)
  }

  method IntEnd(s: string, a: nat) returns (b: nat, ok: bool)
    requires a < |s|
    ensures if ok then GreedyInt(s, a, b) else forall e: nat :: !Int(s, a, e)
  {
    if s[a] == '0' {
      return a + 1, true;
    }
    if s[a] < '1' || s[a] > '9' {
      return 0, false;
    }
    b := SkipDigits(s, a + 1);
    ok := true;
  }

  method FracEnd(s: string, b: nat) returns (c: nat)
    requires b <= |s|
    ensures c <= |s| && GreedyFrac(s, b, c)
  {
    c := b;
    if b < |s| && s[b] == '.' && b + 1 < |s| && IsDigit(s[b + 1]) {
      c := SkipDigits(s, b + 2);
    }
  }

  method ExpEnd(s: string, c: nat) returns (j: nat)
    requires c <= |s|
    ensures j <= |s| && GreedyExp(s, c, j)
  {
    if c < |s| && (s[c] == 'e' || s[c] == 'E') {
      var exponent := c + 1;
      if exponent < |s| && (s[exponent] == '+' || s[exponent] == '-') {
        exponent := exponent + 1;
      }
      if exponent >= |s| || !IsDigit(s[exponent]) {
        return c;
      }
      j := SkipDigits(s, exponent + 1);
    } else {
      j := c;
    }
  }

  /** `end` is the end of the longest number that begins at `start`. */
  ghost predicate IsLongest(s: string, start: nat, end: nat) {
    IsNumber(s, start, end) && forall e: nat :: IsNumber(s, start, e) ==> e <= end
  }

  method JsonNumberEnd(content: string, start: nat) returns (end: nat, ok: bool)
    requires start < |content| && (content[start] == '-' || IsDigit(content[start]))
    ensures ok ==> start < end <= |content| && IsLongest(content, start, end)
    ensures !ok ==> forall e: nat :: !IsNumber(content, start, e)
  {
    hide GreedyFrac, GreedyExp, IsLongest;
    var index := start;
    if content[index] == '-' {
      index := index + 1;
      if index >= |content| {
        return 0, false;
      }
    }
    var b;
    b, ok := IntEnd(content, index);
    if !ok {
      return 0, false;
    }
    var c := FracEnd(content, b);
    end := ExpEnd(content, c);
    LongestIs(content, start, index, b, c, end);
  }

  lemma LongestIs(s: string, i: nat, a: nat, b: nat, c: nat, j: nat)
    requires i < |s| && (if s[i] == '-' then a == i + 1 else a == i)
    requires GreedyInt(s, a, b) && GreedyFrac(s, b, c) && GreedyExp(s, c, j)
    ensures i < j && IsLongest(s, i, j)
  {
    assert IsNumberWith(s, i, a, b, c, j);
    forall e: nat | IsNumber(s, i, e) ensures e <= j {
      var x, y, z :| IsNumberWith(s, i, x, y, z, e);
      LongerThan(s, i, a, b, c, j, x, y, z, e);
    }
  }

  /** Compare the scan part by part with any other reading: it can only stop earlier. */
  lemma LongerThan(s: string, i: nat, a: nat, b: nat, c: nat, j: nat, x: nat, y: nat, z: nat, e: nat)
    requires i < |s| && (if s[i] == '-' then a == i + 1 else a == i)
    requires GreedyInt(s, a, b) && GreedyFrac(s, b, c) && GreedyExp(s, c, j)
    requires IsNumberWith(s, i, x, y, z, e)
    ensures e <= j
  {
    assert x == a;
    assert y <= b;
    if y < b {
      assert IsDigit(s[y]);
      assert z == y && e == z;
    } else {
      assert z <= c;
      if z < c {
        assert e == z;
      } else if e != z {
        assert Exp(s, c, e);
        assert j != c;
      }
    }
  }
}
