/** The Shox96 compressor without a dictionary of previous lines.

    Place is what the loop of the source carries from turn to turn; Turn gives the bits
    one turn appends and the place it leaves, with the branches of the source in its
    order.  The flag `within` is the global to_match_repeats_within, which is 1 in the
    source. */
module ShoxEncoder {
  import opened Bitwise
  import opened ShoxTables
  import opened ShoxBits

  /** The next character to read, the two modes, and the character taken for the last. */
  datatype Place = Place(l: nat, set2: bool, caps: bool, prev: char)

  const START := Place(0, false, false, '\0')

  predicate IsUpper(c: char) { 'A' <= c <= 'Z' }
  predicate IsLower(c: char) { 'a' <= c <= 'z' }
  predicate IsDigit(c: char) { '0' <= c <= '9' }

  // ----- a run of one character -----

  predicate RunAt(s: string, e: Place)
    requires e.l < |s|
  {
    e.l + 4 < |s| && s[e.l] == e.prev
    && s[e.l] == s[e.l + 1] && s[e.l] == s[e.l + 2] && s[e.l] == s[e.l + 3]
  }

  /** The first place from k on that holds something other than c. */
  function RunEnd(s: string, c: char, k: nat): (r: nat)
    requires k <= |s|
    ensures k <= r <= |s| && (forall i | k <= i < r :: s[i] == c) && (r < |s| ==> s[r] != c)
    decreases |s| - k
  {
    if k < |s| && s[k] == c then RunEnd(s, c, k + 1) else k
  }

  // ----- an earlier occurrence of what follows -----

  /** How far the text at l agrees with the text at j, not reading beyond l or the end. */
  function MatchEnd(s: string, l: nat, j: nat, k: nat): (r: nat)
    requires j <= k <= l && l + (k - j) <= |s|
    ensures k <= r <= l && l + (r - j) <= |s|
    ensures forall i | k <= i < r :: s[i] == s[l + (i - j)]
    decreases l - k
  {
    if k < l && l + (k - j) < |s| && s[k] == s[l + (k - j)] then MatchEnd(s, l, j, k + 1) else k
  }

  datatype Match = NoMatch | Match(j: nat, n: nat)

  /** The first j with a match of at least NICE_LEN_FOR_PRIOR characters, and its length. */
  function FindMatch(s: string, l: nat, j: nat): (m: Match)
    requires j <= l < |s|
    ensures m.Match? ==> j <= m.j && m.j + m.n <= l && l + m.n <= |s| && m.n >= NICE_LEN_FOR_PRIOR
    ensures m.Match? ==> s[l..l + m.n] == s[m.j..m.j + m.n]
    decreases l - j
  {
    if j == l then NoMatch
    else
      var k := MatchEnd(s, l, j, j);
      if k - j > NICE_LEN_FOR_PRIOR - 1 then Match(j, k - j) else FindMatch(s, l, j + 1)
  }

  function Lookback(s: string, l: nat, within: bool): (m: Match)
    requires l < |s|
    ensures m.Match? ==> m.j + m.n <= l && l + m.n <= |s| && m.n >= NICE_LEN_FOR_PRIOR
    ensures m.Match? ==> s[l..l + m.n] == s[m.j..m.j + m.n]
  {
    if within && l + NICE_LEN_FOR_PRIOR < |s| then FindMatch(s, l, 0) else NoMatch
  }

  /** A back-reference from l to n characters at j: its length, then its distance. */
  function BackBits(l: nat, j: nat, n: nat): seq<bool>
    requires NICE_LEN_FOR_PRIOR <= n && j + n <= l
  {
    CodeBits(14144, 10, false) + CountWord(n - NICE_LEN_FOR_PRIOR) + CountWord(l - j - NICE_LEN_FOR_PRIOR + 1)
  }

  // ----- a character, or a CR LF pair -----

  /** Whether the digit mode goes on: a space is judged by what follows it. */
  predicate StaysDigits(s: string, l: nat)
    requires l < |s|
  {
    InSet2(if s[l] == ' ' && l + 1 < |s| then s[l + 1] else s[l])
  }

  /** Six characters are left from l on and none of them is a small letter. */
  predicate CapsAhead(s: string, l: nat) {
    l + 5 < |s| && forall i | l <= i <= l + 5 :: !IsLower(s[i])
  }

  /** The modes in which the character at e.l is written. */
  function ModesFor(s: string, e: Place): (r: Place)
    requires e.l < |s|
    ensures r.l == e.l && r.prev == e.prev
  {
    var c := s[e.l];
    e.(set2 := (e.set2 && StaysDigits(s, e.l)) || IsDigit(c),
       caps := IsUpper(c) && (e.caps || CapsAhead(s, e.l)))
  }

  /** The codes that change the modes: out of the digits, capitals off, capitals on, into
      the digits. */
  function ModeBits(s: string, e: Place): seq<bool>
    requires e.l < |s|
  {
    var c := s[e.l];
    var set2 := e.set2 && StaysDigits(s, e.l);
    (if e.set2 && !set2 then CodeBits(8192, 4, false) else [])
    + (if !IsUpper(c) && e.caps then CodeBits(8192, 4, set2) else [])
    + (if IsUpper(c) && !e.caps && CapsAhead(s, e.l) then CodeBits(8704, 8, set2) else [])
    + (if !set2 && IsDigit(c) then CodeBits(14336, 7, false) else [])
  }

  predicate CrLfAt(s: string, l: nat)
    requires l < |s|
  {
    s[l] == '\r' && l + 1 < |s| && s[l + 1] == '\n'
  }

  /** The code of the character itself, in the modes r. */
  function CharBits(s: string, r: Place): seq<bool>
    requires r.l < |s|
  {
    var c := s[r.l];
    if ' ' <= c <= '~' then
      var i := c as nat - 32 + if r.caps && IsUpper(c) then 32 else 0;
      if i == 0 && r.set2 then CodeBits(15232, 11, true) else CodeBits(C95(i), L95(i), r.set2)
    else if CrLfAt(s, r.l) then CodeBits(13824, 9, r.set2)
    else if c == '\n' then CodeBits(13952, 9, r.set2)
    else if c == '\r' then CodeBits(9064, 13, r.set2)
    else if c == '\t' then CodeBits(9216, 7, r.set2)
    else []
  }

  /** A character, or a CR LF pair, with the mode changes it needs. */
  function Literal(s: string, e: Place): (t: (seq<bool>, Place))
    requires e.l < |s|
    ensures e.l < t.1.l <= |s|
  {
    var r := ModesFor(s, e);
    (ModeBits(s, e) + CharBits(s, r),
     if CrLfAt(s, e.l) then r.(l := e.l + 2, prev := '\n') else r.(l := e.l + 1, prev := s[e.l]))
  }

  // ----- the loop -----

  /** What one turn appends, and where it goes on.  After a back-reference the character
      taken for the last one is the one before it (see ShoxRoundTrip). */
  function TurnOf(s: string, e: Place, within: bool): (t: (seq<bool>, Place))
    requires e.l < |s|
    ensures e.l < t.1.l <= |s|
  {
    if RunAt(s, e) then
      var end := RunEnd(s, s[e.l], e.l + 4);
      (CodeBits(14208, 10, false) + CountWord(end - e.l - 4), e.(l := end))
    else
      match Lookback(s, e.l, within)
      case Match(j, n) =>
        (BackBits(e.l, j, n), e.(l := e.l + n, prev := s[e.l + n - 2]))
      case NoMatch => Literal(s, e)
  }

  function EncodeFrom(s: string, e: Place, within: bool): seq<bool>
    decreases |s| - e.l
  {
    if e.l >= |s| then []
    else
      var (bits, e') := TurnOf(s, e, within);
      bits + EncodeFrom(s, e', within)
  }

  /** The last byte is filled up with the beginning of a code that has no character. */
  function Padding(n: nat): (w: seq<bool>)
    ensures |w| < 8 && (n + |w|) % 8 == 0
  {
    if n % 8 == 0 then [] else CodeBits(14272, 8 - n % 8, false)
  }

  function Encode(s: string, within: bool): (w: seq<bool>)
    ensures |w| % 8 == 0
  {
    var w := EncodeFrom(s, START, within);
    w + Padding(|w|)
  }

  // ---------------------------------------------------------------------------------
  // The code itself.

  method WriteBack(out: array<Byte>, ol: nat, l: nat, j: nat, n: nat, ghost w: seq<bool>) returns (ol': nat)
    requires NICE_LEN_FOR_PRIOR <= n && j + n <= l
    requires ol == |w| && Holds(out[..], w) && ol + |BackBits(l, j, n)| <= 8 * out.Length
    modifies out
    ensures ol' == ol + |BackBits(l, j, n)| && Holds(out[..], w + BackBits(l, j, n))
  {
    hide Holds, CodeBits, CountWord;
    ghost var code, len := CodeBits(14144, 10, false), CountWord(n - NICE_LEN_FOR_PRIOR);
    assert w + code + len + CountWord(l - j - NICE_LEN_FOR_PRIOR + 1) == w + BackBits(l, j, n);
    ol' := AppendBits(out, ol, 14144, 10, false, w);
    ol' := EncodeCount(out, ol', n - NICE_LEN_FOR_PRIOR, w + code);
    ol' := EncodeCount(out, ol', l - j - NICE_LEN_FOR_PRIOR + 1, w + code + len);
  }

  /** The inner loop of matchOccurance. */
  method MatchUntil(input: string, l: nat, j: nat) returns (k: nat)
    requires j <= l < |input|
    ensures k == MatchEnd(input, l, j, j)
  {
    k := j;
    while k < l && l + k - j < |input| && input[k] == input[l + k - j]
      invariant j <= k <= l && l + (k - j) <= |input|
      invariant MatchEnd(input, l, j, k) == MatchEnd(input, l, j, j)
    {
      k := k + 1;
    }
  }

  /** matchOccurance: one less than the next place after writing a back-reference, or -l. */
  method MatchOccurance(input: string, l: nat, out: array<Byte>, ol: nat, ghost w: seq<bool>)
    returns (l': int, ol': nat)
    requires l < |input| && ol == |w| && Holds(out[..], w)
    requires match FindMatch(input, l, 0)
      case Match(j, n) => ol + |BackBits(l, j, n)| <= 8 * out.Length
      case NoMatch => true
    modifies out
    ensures match FindMatch(input, l, 0)
      case Match(j, n) => l' == l + n - 1 && ol' == ol + |BackBits(l, j, n)| && Holds(out[..], w + BackBits(l, j, n))
      case NoMatch => l' == 0 - l && ol' == ol && out[..] == old(out[..])
  {
    hide Holds, BackBits, MatchEnd;
    for j := 0 to l
      invariant FindMatch(input, l, j) == FindMatch(input, l, 0)
      invariant out[..] == old(out[..])
    {
      var k := MatchUntil(input, l, j);
      if k - j > NICE_LEN_FOR_PRIOR - 1 {
        ol' := WriteBack(out, ol, l, j, k - j, w);
        return l + (k - j) - 1, ol';
      }
    }
    return 0 - l, ol;
  }

  /** An append on top of what the turn has written so far. */
  method Put(out: array<Byte>, ol: nat, code: nat, clen: nat, set2: bool, ghost w: seq<bool>, ghost done: seq<bool>)
    returns (ol': nat, ghost done': seq<bool>)
    requires clen <= 16
    requires ol == |w + done| && Holds(out[..], w + done)
    requires ol + |CodeBits(code, clen, set2)| <= 8 * out.Length
    modifies out
    ensures done' == done + CodeBits(code, clen, set2)
    ensures ol' == |w + done'| && Holds(out[..], w + done')
  {
    hide Holds, CodeBits, CountWord;
    done' := done + CodeBits(code, clen, set2);
    assert w + done + CodeBits(code, clen, set2) == w + done';
    ol' := AppendBits(out, ol, code, clen, set2, w + done);
  }

  /** The backward scan for small letters: it ends one before l if there are none. */
  method ScanCaps(input: string, l: nat) returns (found: bool)
    requires l < |input|
    ensures found == CapsAhead(input, l)
  {
    var ll: int := l + 5;
    while l <= ll < |input|
      invariant l - 1 <= ll <= l + 5
      invariant ll < l + 5 ==> l + 5 < |input|
      invariant l + 5 < |input| ==> forall i | ll < i <= l + 5 :: !IsLower(input[i])
      decreases ll
    {
      if 'a' <= input[ll] <= 'z' {
        break;
      }
      ll := ll - 1;
    }
    found := ll == l - 1;
  }

  /** The mode changes of one turn. */
  method WriteModes(input: string, e: Place, out: array<Byte>, ol: nat, ghost w: seq<bool>)
    returns (set2: bool, isAllUpper: bool, isUpper: bool, ol': nat)
    requires e.l < |input| && ol == |w| && Holds(out[..], w)
    requires ol + |ModeBits(input, e)| <= 8 * out.Length
    modifies out
    ensures set2 == ModesFor(input, e).set2 && isAllUpper == ModesFor(input, e).caps && isUpper == IsUpper(input[e.l])
    ensures ol' == ol + |ModeBits(input, e)| && Holds(out[..], w + ModeBits(input, e))
  {
    hide Holds, CodeBits, CountWord, InSet2;
    var l, c := e.l, input[e.l];
    set2, isAllUpper, ol' := e.set2, e.caps, ol;
    ghost var done: seq<bool> := [];
    assert w + done == w;
    if set2 {
      var key := if c == ' ' && |input| - 1 > l then input[l + 1] else c;
      if !InSet2(key) {
        set2 := false;
        ol', done := Put(out, ol', 8192, 4, false, w, done);
      }
    }
    isUpper := false;
    if 'A' <= c <= 'Z' {
      isUpper := true;
    } else if isAllUpper {
      isAllUpper := false;
      ol', done := Put(out, ol', 8192, 4, set2, w, done);
    }
    if isUpper && !isAllUpper {
      var none := ScanCaps(input, l);
      if none {
        ol', done := Put(out, ol', 8704, 8, set2, w, done);
        isAllUpper := true;
      }
    }
    if !set2 && '0' <= c <= '9' {
      ol', done := Put(out, ol', 14336, 7, false, w, done);
      set2 := true;
    }
    assert done == ModeBits(input, e);
  }

  /** The code of the character at r.l, in the modes r. */
  method WriteChar(input: string, r: Place, isUpper: bool, out: array<Byte>, ol: nat, ghost w: seq<bool>)
    returns (l: nat, cPrev: char, ol': nat)
    requires r.l < |input| && isUpper == IsUpper(input[r.l])
    requires ol == |w| && Holds(out[..], w) && ol + |CharBits(input, r)| <= 8 * out.Length
    modifies out
    ensures l == (if CrLfAt(input, r.l) then r.l + 1 else r.l)
    ensures cPrev == (if CrLfAt(input, r.l) then '\n' else input[r.l])
    ensures ol' == ol + |CharBits(input, r)| && Holds(out[..], w + CharBits(input, r))
  {
    hide Holds, CodeBits, C95, L95;
    var c := input[r.l];
    var cNext := if r.l + 1 < |input| then input[r.l + 1] else '\0';
    l, cPrev, ol' := r.l, c, ol;
    assert w + [] == w;
    if ' ' <= c <= '~' {
      var i := c as nat - 32;
      if r.caps && isUpper {
        i := i + 32;
      }
      if i == 0 && r.set2 {
        ol' := AppendBits(out, ol, 15232, 11, true, w);
      } else {
        ol' := AppendBits(out, ol, C95(i), L95(i), r.set2, w);
      }
    } else if c == '\r' && cNext == '\n' {
      ol' := AppendBits(out, ol, 13824, 9, r.set2, w);
      l, cPrev := l + 1, '\n';
    } else if c == '\n' {
      ol' := AppendBits(out, ol, 13952, 9, r.set2, w);
    } else if c == '\r' {
      ol' := AppendBits(out, ol, 9064, 13, r.set2, w);
    } else if c == '\t' {
      ol' := AppendBits(out, ol, 9216, 7, r.set2, w);
    }
  }

  /** The run branch of the loop. */
  method WriteRun(input: string, l: nat, out: array<Byte>, ol: nat, ghost w: seq<bool>) returns (l': nat, ol': nat)
    requires l + 4 < |input| && ol == |w| && Holds(out[..], w)
    requires ol + 10 + |CountWord(RunEnd(input, input[l], l + 4) - l - 4)| <= 8 * out.Length
    modifies out
    ensures var end := RunEnd(input, input[l], l + 4);
      var bits := CodeBits(14208, 10, false) + CountWord(end - l - 4);
      l' == end - 1 && ol' == ol + |bits| && Holds(out[..], w + bits)
  {
    hide Holds, CodeBits, CountWord;
    var rptCount := l + 4;
    while rptCount < |input| && input[rptCount] == input[l]
      invariant l + 4 <= rptCount <= |input|
      invariant RunEnd(input, input[l], rptCount) == RunEnd(input, input[l], l + 4)
    {
      rptCount := rptCount + 1;
    }
    rptCount := rptCount - l;
    ghost var code := CodeBits(14208, 10, false);
    assert w + code + CountWord(rptCount - 4) == w + (code + CountWord(rptCount - 4));
    ol' := AppendBits(out, ol, 14208, 10, false, w);
    ol' := EncodeCount(out, ol', rptCount - 4, w + code);
    l' := l + rptCount - 1;
  }

  /** The rest of the loop body: mode changes and the character. */
  method WriteLiteral(input: string, e: Place, out: array<Byte>, ol: nat, ghost w: seq<bool>)
    returns (l: nat, set2: bool, isAllUpper: bool, cPrev: char, ol': nat)
    requires e.l < |input| && ol == |w| && Holds(out[..], w)
    requires ol + |Literal(input, e).0| <= 8 * out.Length
    modifies out
    ensures Place(l + 1, set2, isAllUpper, cPrev) == Literal(input, e).1
    ensures ol' == ol + |Literal(input, e).0| && Holds(out[..], w + Literal(input, e).0)
  {
    hide Holds, CharBits, ModeBits, StaysDigits, CapsAhead;
    var isUpper;
    ghost var mode := ModeBits(input, e);
    set2, isAllUpper, isUpper, ol' := WriteModes(input, e, out, ol, w);
    var r := Place(e.l, set2, isAllUpper, e.prev);
    assert w + mode + CharBits(input, r) == w + (mode + CharBits(input, r));
    l, cPrev, ol' := WriteChar(input, r, isUpper, out, ol', w + mode);
  }

  /** One turn of the loop.  The l it returns is the last place taken: the loop adds one. */
  method TakeTurn(input: string, e: Place, within: bool, out: array<Byte>, ol: nat, ghost w: seq<bool>)
    returns (l: nat, set2: bool, isAllUpper: bool, cPrev: char, ol': nat)
    requires e.l < |input| && ol == |w| && Holds(out[..], w)
    requires ol + |TurnOf(input, e, within).0| <= 8 * out.Length
    modifies out
    ensures Place(l + 1, set2, isAllUpper, cPrev) == TurnOf(input, e, within).1
    ensures ol' == ol + |TurnOf(input, e, within).0| && Holds(out[..], w + TurnOf(input, e, within).0)
  {
    hide Holds, CodeBits, CountWord, Literal, BackBits, FindMatch;
    l, set2, isAllUpper, cPrev, ol' := e.l, e.set2, e.caps, e.prev, ol;
    var cIn := input[l];
    if l + 4 < |input| {
      if cIn == cPrev && cIn == input[l + 1] && cIn == input[l + 2] && cIn == input[l + 3] {
        l, ol' := WriteRun(input, l, out, ol, w);
        return;
      }
    }
    if l + NICE_LEN_FOR_PRIOR < |input| && within {
      var l1;
      l1, ol' := MatchOccurance(input, l, out, ol, w);
      if l1 > 0 {
        l, cPrev := l1, input[l1 - 1];
        return;
      }
    }
    l, set2, isAllUpper, cPrev, ol' := WriteLiteral(input, e, out, ol', w);
  }

  /** shox96_0_2_compress with prev_lines NULL: the number of bytes written. */
  method Compress(input: string, within: bool, out: array<Byte>) returns (n: nat)
    requires |Encode(input, within)| <= 8 * out.Length
    modifies out
    ensures n <= out.Length && BitsOf(out[..n]) == Encode(input, within)
  {
    hide Holds, TurnOf, CodeBits, BitsOf;
    var ol, l := 0, 0;
    var cPrev, state2, isAllUpper := '\0', false, false;
    ghost var w: seq<bool> := [];
    ghost var all := EncodeFrom(input, START, within);
    NothingHeld(out[..]);
    while l < |input|
      invariant l <= |input| && ol == |w| && Holds(out[..], w)
      invariant w + EncodeFrom(input, Place(l, state2, isAllUpper, cPrev), within) == all
      decreases |input| - l
    {
      var e := Place(l, state2, isAllUpper, cPrev);
      ghost var bits := TurnOf(input, e, within).0;
      l, state2, isAllUpper, cPrev, ol := TakeTurn(input, e, within, out, ol, w);
      assert w + bits + EncodeFrom(input, TurnOf(input, e, within).1, within) == all;
      w := w + bits;
      l := l + 1;
    }
    assert w == all;
    var bits := ol % 8;
    if bits > 0 {
      ol := AppendBits(out, ol, 14272, 8 - bits, false, w);
      w := w + CodeBits(14272, 8 - bits, false);
    }
    assert w == Encode(input, within);
    n := ol / 8 + if ol % 8 > 0 then 1 else 0;
    HeldBits(out[..], w);
  }

  lemma NothingHeld(s: seq<Byte>)
    ensures Holds(s, [])
  {
  }

  lemma HeldBits(s: seq<Byte>, w: seq<bool>)
    requires Holds(s, w) && |w| % 8 == 0
    ensures BitsOf(s[..|w| / 8]) == w
  {
    var t := s[..|w| / 8];
    forall p | 0 <= p < |w| ensures BitsOf(t)[p] == w[p] {
      assert Digit(s[p / 8], p % 8) == w[8 * (p / 8) + p % 8];
    }
  }
}
