/** Random client ids: letters out of the six-bit groups of 63-bit random words. */
module ClientId {

  const UNIQUE_ID_LENGTH := 6
  const LETTERS := "abcdefghijklmnopqrstuvwxyzABCDEFGHIJKLMNOPQRSTUVWXYZ"
  const LETTER_COUNT := 52
  const LETTER_IDX_MAX := 10      // six-bit groups in 63 bits
  const WORD_LIMIT: nat := 0x8000_0000_0000_0000

  // --- What the id is -----------------------------------------------------------------

  /** `w` without its `k` lowest groups. */
  function Shifted(w: nat, k: nat): nat {
    if k == 0 then w else Shifted(w / 64, k - 1)
  }

  function Group(w: nat, k: nat): nat {
    Shifted(w, k) % 64
  }

  /** The groups of all words in order: low bits first, and ten a word, as many as 63 bits
      hold. */
  function GroupAt(src: nat -> nat, n: nat): nat {
    Group(src(n / LETTER_IDX_MAX), n % LETTER_IDX_MAX)
  }

  predicate IsLetterIndex(g: nat) {
    g < LETTER_COUNT
  }

  type LetterIndex = g: nat | g < LETTER_COUNT

  /** What is written for an index; the loop does not depend on it. */
  type Alphabet = LetterIndex -> char

  function LetterAt(g: LetterIndex): char {
    LETTERS[g]
  }

  /** Those of the first `n` groups that index a letter. */
  function Accepted(src: nat -> nat, n: nat): seq<LetterIndex> {
    if n == 0 then []
    else
      var g := GroupAt(src, n - 1);
      Accepted(src, n - 1) + (if IsLetterIndex(g) then [g] else [])
  }

  /** The letters of the indices, the last index first. */
  function Word(letters: Alphabet, indices: seq<LetterIndex>): string {
    seq(|indices|, k requires 0 <= k < |indices| => letters(indices[|indices| - 1 - k]))
  }

  lemma WordOneMore(letters: Alphabet, indices: seq<LetterIndex>, g: LetterIndex)
    ensures Word(letters, indices + [g]) == [letters(g)] + Word(letters, indices)
  {
  }

  /** More groups only add to what has been accepted. */
  lemma {:induction false} AcceptedGrows(src: nat -> nat, m: nat, n: nat)
    requires m <= n
    ensures Accepted(src, m) <= Accepted(src, n)
  {
    if m < n {
      AcceptedGrows(src, m, n - 1);
    }
  }

  lemma {:induction false} ShiftedOneMore(w: nat, k: nat)
    ensures Shifted(w, k + 1) == Shifted(w, k) / 64
  {
    if k > 0 {
      ShiftedOneMore(w / 64, k - 1);
    }
  }

  // --- The loop -----------------------------------------------------------------------

  /** The loop of `generateClientId`. It ends because the random words hold six usable
      groups among the first `bound`; without such a bound it does not end. */
  method RandomLetters(letters: Alphabet, src: nat -> nat, ghost bound: nat) returns (id: string)
    requires |Accepted(src, bound)| >= UNIQUE_ID_LENGTH
    ensures id == Word(letters, Accepted(src, bound)[..UNIQUE_ID_LENGTH])
  {
    var b := new char[UNIQUE_ID_LENGTH];
    var i, cache, remain := UNIQUE_ID_LENGTH - 1, src(0), LETTER_IDX_MAX;
    var word := 0;
    ghost var seen, filled := 0, "";
    while i >= 0
      invariant -1 <= i < UNIQUE_ID_LENGTH && b[i + 1..] == filled
      invariant seen <= bound && InLoop(letters, src, word, remain, seen, cache, filled)
      decreases bound - seen
    {
      i, word, cache, remain, filled := OneTurn(letters, b, i, src, word, cache, remain, seen, filled, bound);
      seen := seen + 1;
    }
    id := b[..];
    assert id == filled;
    FilledUp(letters, id, src, seen, bound);
  }

  /** The body of the loop. */
  method OneTurn(letters: Alphabet, b: array<char>, i: nat, src: nat -> nat, word: nat, cache: nat, remain: int,
                 ghost seen: nat, ghost filled: string, ghost bound: nat)
    returns (j: int, word': nat, cache': nat, remain': int, ghost more: string)
    requires i < b.Length == UNIQUE_ID_LENGTH && b[i + 1..] == filled
    requires InLoop(letters, src, word, remain, seen, cache, filled)
    requires UNIQUE_ID_LENGTH <= |Accepted(src, bound)| && seen <= bound
    modifies b
    ensures -1 <= j <= i && b[j + 1..] == more && seen < bound
    ensures InLoop(letters, src, word', remain', seen + 1, cache', more)
  {
    var idx;
    idx, word', cache', remain' := NextGroup(letters, src, word, cache, remain, seen, filled, bound);
    j, more := PutByte(letters, b, i, idx, filled);
  }

  /** Where the loop stands. */
  predicate InLoop(letters: Alphabet, src: nat -> nat, word: nat, remain: int, seen: nat, cache: nat, filled: string) {
    InStep(src, word, remain, seen, cache) && Filled(letters, filled, src, seen)
  }

  /** The next group of the stream, out of the cache or out of a new word. */
  method NextGroup(ghost letters: Alphabet, src: nat -> nat, word: nat, cache: nat, remain: int,
                   ghost seen: nat, ghost filled: string, ghost bound: nat)
    returns (idx: nat, word': nat, cache': nat, remain': int)
    requires InStep(src, word, remain, seen, cache) && Filled(letters, filled, src, seen)
    requires |filled| < UNIQUE_ID_LENGTH <= |Accepted(src, bound)| && seen <= bound
    ensures InStep(src, word', remain', seen + 1, cache') && seen < bound
    ensures idx == GroupAt(src, seen) && Filled(letters, WithGroup(letters, filled, idx), src, seen + 1)
  {
    word', cache', remain' := word, cache, remain;
    if remain' == 0 {
      NextWord(src, word, seen, cache);
      word' := word' + 1;
      cache', remain' := src(word'), LETTER_IDX_MAX;
    }
    OneGroup(letters, src, word', remain', seen, cache', filled, bound);
    idx := cache' % 64;
    cache' := cache' / 64;
    remain' := remain' - 1;
  }

  /** A group that indexes a letter is written as the next byte, from the end. */
  method PutByte(letters: Alphabet, b: array<char>, i: nat, idx: nat, ghost filled: string)
    returns (j: int, ghost more: string)
    requires i < b.Length && b[i + 1..] == filled
    modifies b
    ensures -1 <= j <= i && b[j + 1..] == more && more == WithGroup(letters, filled, idx)
  {
    j, more := i, filled;
    if idx < LETTER_COUNT {
      b[i] := letters(idx);
      more := [letters(idx)] + filled;
      j := i - 1;
    }
  }

  /** The bytes once group `g` has been used. */
  function WithGroup(letters: Alphabet, bytes: string, g: nat): string {
    if IsLetterIndex(g) then [letters(g)] + bytes else bytes
  }

  lemma FilledUp(letters: Alphabet, bytes: string, src: nat -> nat, seen: nat, bound: nat)
    requires |bytes| == UNIQUE_ID_LENGTH && Filled(letters, bytes, src, seen) && seen <= bound
    ensures |Accepted(src, bound)| >= UNIQUE_ID_LENGTH
    ensures bytes == Word(letters, Accepted(src, bound)[..UNIQUE_ID_LENGTH])
  {
    FilledIsWord(letters, bytes, src, seen);
    AcceptedGrows(src, seen, bound);
    assert Accepted(src, seen) == Accepted(src, bound)[..UNIQUE_ID_LENGTH];
  }

  /** `generateClientId`: the application id, a dash, and the first six usable groups of the
      random words as letters, the last one first. */
  method GenerateClientId(appId: string, src: nat -> nat, ghost bound: nat) returns (id: string)
    requires |Accepted(src, bound)| >= UNIQUE_ID_LENGTH
    ensures id == appId + "-" + Word(LetterAt, Accepted(src, bound)[..UNIQUE_ID_LENGTH])
  {
    var letters := RandomLetters(LetterAt, src, bound);
    id := appId + "-" + letters;
  }

  /** These bytes are what using the first `seen` groups, one by one, leaves. */
  predicate Filled(letters: Alphabet, bytes: string, src: nat -> nat, seen: nat) {
    if seen == 0 then bytes == ""
    else
      var g := GroupAt(src, seen - 1);
      if !IsLetterIndex(g) then Filled(letters, bytes, src, seen - 1)
      else bytes != "" && bytes[0] == letters(g) && Filled(letters, bytes[1..], src, seen - 1)
  }

  /** They are the letters of what was accepted. */
  lemma {:induction false} FilledIsWord(letters: Alphabet, bytes: string, src: nat -> nat, seen: nat)
    requires Filled(letters, bytes, src, seen)
    ensures bytes == Word(letters, Accepted(src, seen))
  {
    if seen > 0 {
      var g := GroupAt(src, seen - 1);
      if IsLetterIndex(g) {
        FilledIsWord(letters, bytes[1..], src, seen - 1);
        WordOneMore(letters, Accepted(src, seen - 1), g);
      } else {
        FilledIsWord(letters, bytes, src, seen - 1);
        assert Accepted(src, seen) == Accepted(src, seen - 1);
      }
    }
  }

  /** Where the cache stands: `seen` groups are used up, `remain` are left in it. */
  predicate InStep(src: nat -> nat, word: nat, remain: int, seen: nat, cache: nat) {
    0 <= remain <= LETTER_IDX_MAX &&
    seen == LETTER_IDX_MAX * word + (LETTER_IDX_MAX - remain) &&
    cache == Shifted(src(word), LETTER_IDX_MAX - remain)
  }

  /** An empty cache is filled with the next word. */
  lemma NextWord(src: nat -> nat, word: nat, seen: nat, cache: nat)
    requires InStep(src, word, 0, seen, cache)
    ensures InStep(src, word + 1, LETTER_IDX_MAX, seen, src(word + 1))
  {
  }

  /** The lowest group of the cache is the next group of the stream. */
  lemma OneGroup(letters: Alphabet, src: nat -> nat, word: nat, remain: int, seen: nat, cache: nat,
                 bytes: string, bound: nat)
    requires InStep(src, word, remain, seen, cache) && remain >= 1 && Filled(letters, bytes, src, seen)
    requires |bytes| < UNIQUE_ID_LENGTH <= |Accepted(src, bound)| && seen <= bound
    ensures InStep(src, word, remain - 1, seen + 1, cache / 64) && GroupAt(src, seen) == cache % 64
    ensures Filled(letters, WithGroup(letters, bytes, cache % 64), src, seen + 1)
    ensures seen < bound
  {
    assert seen / LETTER_IDX_MAX == word && seen % LETTER_IDX_MAX == LETTER_IDX_MAX - remain;
    assert GroupAt(src, seen) == cache % 64;
    ShiftedOneMore(src(word), LETTER_IDX_MAX - remain);
    FilledIsWord(letters, bytes, src, seen);
    if IsLetterIndex(cache % 64) {
      assert WithGroup(letters, bytes, cache % 64)[1..] == bytes;
    }
  }

  // --- Nothing about the id is out of reach -------------------------------------------

  /** A word whose lowest groups are `gs`. */
  function Pack(gs: seq<nat>): nat {
    if gs == [] then 0 else gs[0] + 64 * Pack(gs[1..])
  }

  lemma {:induction false} PackedGroups(gs: seq<nat>, k: nat)
    requires k < |gs| && forall g | g in gs :: g < 64
    ensures Group(Pack(gs), k) == gs[k]
  {
    assert gs[0] in gs;
    if k > 0 {
      assert forall g | g in gs[1..] :: g in gs;
      PackedGroups(gs[1..], k - 1);
      assert Pack(gs) / 64 == Pack(gs[1..]);
    }
  }

  function Power64(n: nat): nat {
    if n == 0 then 1 else 64 * Power64(n - 1)
  }

  lemma {:induction false} PackedIsSmall(gs: seq<nat>)
    requires forall g | g in gs :: g < 64
    ensures Pack(gs) < Power64(|gs|)
  {
    if gs != [] {
      assert gs[0] in gs;
      assert forall g | g in gs[1..] :: g in gs;
      PackedIsSmall(gs[1..]);
    }
  }

  lemma PackedFits(gs: seq<nat>)
    requires |gs| == UNIQUE_ID_LENGTH && forall g | g in gs :: IsLetterIndex(g)
    ensures Pack(gs) < WORD_LIMIT
  {
    PackedIsSmall(gs);
    assert Power64(2) == 4096;
    assert Power64(4) == 64 * 64 * Power64(2);
    assert Power64(6) == 64 * 64 * Power64(4);
  }

  lemma FirstGroups(src: nat -> nat, n: nat)
    requires n < LETTER_IDX_MAX
    ensures GroupAt(src, n) == Group(src(0), n)
  {
    assert n / LETTER_IDX_MAX == 0 && n % LETTER_IDX_MAX == n;
  }

  lemma {:induction false} AcceptedOfPacked(src: nat -> nat, gs: seq<nat>, n: nat)
    requires n <= |gs| <= LETTER_IDX_MAX && src(0) == Pack(gs)
    requires forall g | g in gs :: IsLetterIndex(g)
    ensures Accepted(src, n) == gs[..n]
  {
    if n > 0 {
      AcceptedOfPacked(src, gs, n - 1);
      PackedGroups(gs, n - 1);
      FirstGroups(src, n - 1);
      assert gs[n - 1] in gs;
      assert gs[..n] == gs[..n - 1] + [gs[n - 1]];
    }
  }

  /** Every six letters are the id of some random word, so no id is out of reach. */
  lemma EveryIdIsPossible(gs: seq<nat>, src: nat -> nat)
    requires |gs| == UNIQUE_ID_LENGTH && forall g | g in gs :: IsLetterIndex(g)
    requires src(0) == Pack(gs)
    ensures src(0) < WORD_LIMIT
    ensures Accepted(src, UNIQUE_ID_LENGTH) == gs
  {
    PackedFits(gs);
    AcceptedOfPacked(src, gs, UNIQUE_ID_LENGTH);
    assert gs[..UNIQUE_ID_LENGTH] == gs;
  }
}
