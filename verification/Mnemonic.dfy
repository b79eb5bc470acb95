/** The recovery phrase of internal/crypto/recovery.go: 32 bytes and a checksum byte written as
    24 words, the conversion of section "Generating the mnemonic" of BIP-39.

    Everything holds for any word list of at most 2048 distinct, lower-case, blank-free words and
    any checksum function; the embedded list has 2046 words. */
module Mnemonic {
  import opened Common
  import opened Numerals
  import opened Words

  const SEED_BYTES := 32
  const PHRASE_WORDS := 24
  const WORD_BASE := 2048
  const EMBEDDED_WORDS := 2046

  /** A word list with the functions the codec leaves to the runtime: the first byte of the hash,
      the case mapping and the white space of package strings. */
  datatype Codec = Codec(words: seq<string>, hash: seq<nat> -> nat, lower: char -> char, blank: char -> bool)
  {
    function Checksum(seed: seq<nat>): (b: nat)
      ensures b < 256
    {
      hash(seed) % 256
    }

    ghost predicate Good() {
      && |words| <= WORD_BASE
      && (forall i, j :: 0 <= i < j < |words| ==> words[i] != words[j])
      && (forall i :: 0 <= i < |words| ==> Word(words[i], blank) && Lower(words[i], lower) == words[i])
      && blank(' ') && lower(' ') == ' '
    }
  }

  datatype Error = BadSeedLength | IndexOutOfRange | BadWordCount | UnknownWord | BadChecksum

  // ---------------------------------------------------------------- the word map

  /** The map init builds: each word's last position, cut to 16 bits. */
  function WordMap(words: seq<string>): map<string, nat> {
    if words == [] then map[]
    else WordMap(words[..|words| - 1])[words[|words| - 1] := (|words| - 1) % 65536]
  }

  method InitWordMap(words: seq<string>) returns (m: map<string, nat>)
    ensures m == WordMap(words)
  {
    m := map[];
    for i := 0 to |words|
      invariant m == WordMap(words[..i])
    {
      assert words[..i + 1][..i] == words[..i];
      m := m[words[i] := i % 65536];
    }
    assert words[..|words|] == words;
  }

  /** On a list of distinct words the map inverts the list. */
  lemma {:induction false} WordMapInverts(words: seq<string>)
    requires |words| <= WORD_BASE && forall i, j :: 0 <= i < j < |words| ==> words[i] != words[j]
    ensures forall i :: 0 <= i < |words| ==> words[i] in WordMap(words) && WordMap(words)[words[i]] == i
    ensures forall w :: w in WordMap(words) ==> WordMap(words)[w] < |words| && words[WordMap(words)[w]] == w
  {
    if words != [] {
      var init := words[..|words| - 1];
      WordMapInverts(init);
      assert forall i :: 0 <= i < |init| ==> init[i] == words[i];
    }
  }

  // ---------------------------------------------------------------- encoding

  /** The 264-bit number the words spell: the seed followed by its checksum. */
  function Payload(c: Codec, seed: seq<nat>): nat {
    Value(seed, 256) * 256 + c.Checksum(seed)
  }

  /** The 24 eleven-bit groups of a seed and its checksum. */
  function Groups(c: Codec, seed: seq<nat>): seq<nat> {
    Digits(Payload(c, seed), WORD_BASE, PHRASE_WORDS)
  }

  predicate Encodable(c: Codec, seed: seq<nat>) {
    Below(Groups(c, seed), |c.words|)
  }

  function Spell(c: Codec, groups: seq<nat>): seq<string>
    requires Below(groups, |c.words|)
  {
    seq(|groups|, i requires 0 <= i < |groups| => c.words[groups[i]])
  }

  function Encode(c: Codec, seed: seq<nat>): Result<string, Error> {
    if |seed| != SEED_BYTES then Err(BadSeedLength)
    else if !Encodable(c, seed) then Err(IndexOutOfRange)
    else Ok(Join(Spell(c, Groups(c, seed))))
  }

  /** One turn of the encoder: mask eleven bits off a big integer, then shift them out. */
  method SplitWord(n: nat) returns (idx: nat, rest: nat)
    ensures idx == n % WORD_BASE && rest == n / WORD_BASE
  {
    SmallPowersOfTwo();
    AndMask(n, 11);
    idx := And(n, 0x7FF);
    rest := Rsh(n, 11);
  }

  /** The loop of the encoder, last word first; an index past the list is the run-time panic. */
  method SpellNumber(c: Codec, number: nat, count: nat) returns (r: Result<seq<string>, Error>)
    ensures var groups := Digits(number, WORD_BASE, count);
      r == if Below(groups, |c.words|) then Ok(Spell(c, groups)) else Err(IndexOutOfRange)
  {
    var words := new string[count];
    ghost var groups := Digits(number, WORD_BASE, count);
    var n, i := number, count;
    while i > 0
      invariant 0 <= i <= count && groups[..i] == Digits(n, WORD_BASE, i)
      invariant forall j :: i <= j < count ==> groups[j] < |c.words| && words[j] == c.words[groups[j]]
    {
      i := i - 1;
      LastGroup(groups, n, i);
      var idx, rest := SplitWord(n);
      if idx >= |c.words| {
        return Err(IndexOutOfRange);
      }
      words[i] := c.words[idx];
      n := rest;
    }
    assert words[..] == Spell(c, groups);
    r := Ok(words[..]);
  }

  method SeedToMnemonic(c: Codec, seed: seq<nat>) returns (r: Result<string, Error>)
    requires Below(seed, 256)
    ensures r == Encode(c, seed)
  {
    if |seed| != SEED_BYTES {
      return Err(BadSeedLength);
    }
    var data := seed + [c.Checksum(seed)];
    ValueAppend(seed, c.Checksum(seed), 256);
    var n := Value(data, 256);
    var words := SpellNumber(c, n, PHRASE_WORDS);
    r := if words.Ok? then Ok(Join(words.value)) else Err(words.error);
  }

  // ---------------------------------------------------------------- decoding

  predicate Known(c: Codec, ws: seq<string>) {
    forall i :: 0 <= i < |ws| ==> ws[i] in WordMap(c.words)
  }

  function Indices(c: Codec, ws: seq<string>): seq<nat>
    requires Known(c, ws)
  {
    seq(|ws|, i requires 0 <= i < |ws| => WordMap(c.words)[ws[i]])
  }

  /** The words a phrase is read as. */
  function Normalised(c: Codec, phrase: string): seq<string> {
    Fields(Lower(phrase, c.lower), c.blank)
  }

  /** The 33 bytes spelled by 24 indices. */
  function Unpacked(indices: seq<nat>): (bytes: seq<nat>)
    ensures |bytes| == SEED_BYTES + 1
  {
    Digits(Value(indices, WORD_BASE), 256, SEED_BYTES + 1)
  }

  function Decode(c: Codec, phrase: string): Result<seq<nat>, Error> {
    var ws := Normalised(c, phrase);
    if |ws| != PHRASE_WORDS then Err(BadWordCount)
    else if !Known(c, ws) then Err(UnknownWord)
    else
      var bytes := Unpacked(Indices(c, ws));
      if c.Checksum(bytes[..SEED_BYTES]) != bytes[SEED_BYTES] then Err(BadChecksum)
      else Ok(bytes[..SEED_BYTES])
  }

  /** One turn of the decoder: shift eleven bits in, then or the word's index under them. */
  method AppendWord(n: nat, idx: nat) returns (m: nat)
    requires idx < WORD_BASE
    ensures m == n * WORD_BASE + idx
  {
    SmallPowersOfTwo();
    OrShifted(n, idx, 11);
    m := Or(Lsh(n, 11), idx);
  }

  lemma WordSpaceIsByteSpace()
    ensures Pow(WORD_BASE, PHRASE_WORDS) == Pow(256, SEED_BYTES + 1)
  {
    SmallPowersOfTwo();
    PowPow(2, 11, PHRASE_WORDS);
    PowPow(2, 8, SEED_BYTES + 1);
  }

  lemma LastGroup(groups: seq<nat>, n: nat, i: nat)
    requires i < |groups| && groups[..i + 1] == Digits(n, WORD_BASE, i + 1)
    ensures groups[i] == n % WORD_BASE && groups[..i] == Digits(n / WORD_BASE, WORD_BASE, i)
  {
    assert groups[..i] == groups[..i + 1][..i];
    assert groups[i] == groups[..i + 1][i];
  }

  /** The loop of the decoder, first word first. */
  method ReadNumber(c: Codec, words: seq<string>) returns (r: Result<nat, Error>)
    requires c.Good()
    ensures r == if Known(c, words) then Ok(Value(Indices(c, words), WORD_BASE)) else Err(UnknownWord)
  {
    var wordMap := InitWordMap(c.words);
    var n := 0;
    for i := 0 to |words|
      invariant Known(c, words[..i]) && n == Value(Indices(c, words[..i]), WORD_BASE)
    {
      if words[i] !in wordMap {
        return Err(UnknownWord);
      }
      ReadWord(c, words, i);
      n := AppendWord(n, wordMap[words[i]]);
    }
    assert words[..|words|] == words;
    r := Ok(n);
  }

  /** Read the words, pad the number's bytes on the left, check the last one.  The padding index,
      a natural number here, never goes negative. */
  method MnemonicToSeed(c: Codec, phrase: string) returns (r: Result<seq<nat>, Error>)
    requires c.Good()
    ensures r == Decode(c, phrase)
  {
    var words := Fields(Lower(phrase, c.lower), c.blank);
    if |words| != PHRASE_WORDS {
      return Err(BadWordCount);
    }
    var n := ReadNumber(c, words);
    if n.Err? {
      return Err(n.error);
    }
    PaddingIsUnpacking(c, words);
    var data := MinimalBytes(n.value);
    var padded := Zeros(SEED_BYTES + 1 - |data|) + data;
    var seed := padded[..SEED_BYTES];
    if c.Checksum(seed) != padded[SEED_BYTES] {
      return Err(BadChecksum);
    }
    r := Ok(seed);
  }

  lemma ReadWord(c: Codec, words: seq<string>, i: nat)
    requires c.Good() && i < |words| && Known(c, words[..i]) && words[i] in WordMap(c.words)
    ensures Known(c, words[..i + 1]) && WordMap(c.words)[words[i]] < WORD_BASE
    ensures Value(Indices(c, words[..i + 1]), WORD_BASE)
         == Value(Indices(c, words[..i]), WORD_BASE) * WORD_BASE + WordMap(c.words)[words[i]]
  {
    WordMapInverts(c.words);
    var idx := WordMap(c.words)[words[i]];
    ValueAppend(Indices(c, words[..i]), idx, WORD_BASE);
    assert Indices(c, words[..i + 1]) == Indices(c, words[..i]) + [idx];
  }

  lemma IndicesBelow(c: Codec, ws: seq<string>)
    requires c.Good() && Known(c, ws)
    ensures Below(Indices(c, ws), |c.words|) && Below(Indices(c, ws), WORD_BASE)
  {
    WordMapInverts(c.words);
  }

  /** The bytes of 24 words' number, padded to 33, are its digits: leading zero bytes survive. */
  lemma PaddingIsUnpacking(c: Codec, ws: seq<string>)
    requires c.Good() && |ws| == PHRASE_WORDS && Known(c, ws)
    ensures var bytes := MinimalBytes(Value(Indices(c, ws), WORD_BASE));
      |bytes| <= SEED_BYTES + 1 && Zeros(SEED_BYTES + 1 - |bytes|) + bytes == Unpacked(Indices(c, ws))
  {
    IndicesBelow(c, ws);
    ValueBound(Indices(c, ws), WORD_BASE);
    WordSpaceIsByteSpace();
    PaddedBytes(Value(Indices(c, ws), WORD_BASE), SEED_BYTES + 1);
  }

  // ---------------------------------------------------------------- round trips

  /** Spelling and reading indices are inverse. */
  lemma IndicesOfSpell(c: Codec, groups: seq<nat>)
    requires c.Good() && Below(groups, |c.words|)
    ensures Known(c, Spell(c, groups)) && Indices(c, Spell(c, groups)) == groups
  {
    WordMapInverts(c.words);
  }

  lemma SpellOfIndices(c: Codec, ws: seq<string>)
    requires c.Good() && Known(c, ws)
    ensures Below(Indices(c, ws), |c.words|) && Spell(c, Indices(c, ws)) == ws
  {
    WordMapInverts(c.words);
  }

  lemma NormalisedSpelling(c: Codec, groups: seq<nat>)
    requires c.Good() && Below(groups, |c.words|)
    ensures Normalised(c, Join(Spell(c, groups))) == Spell(c, groups)
  {
    LowerOfJoin(Spell(c, groups), c.lower);
    FieldsOfJoin(Spell(c, groups), c.blank);
  }

  /** The checksum byte ends the payload: unpacking the groups gives the seed and its checksum. */
  lemma UnpackedGroups(c: Codec, seed: seq<nat>)
    requires |seed| == SEED_BYTES && Below(seed, 256)
    ensures Unpacked(Groups(c, seed)) == seed + [c.Checksum(seed)]
  {
    var data := seed + [c.Checksum(seed)];
    ValueAppend(seed, c.Checksum(seed), 256);
    SmallPowersOfTwo();
    Regroup(data, 256, 8, WORD_BASE, 11, PHRASE_WORDS);
  }

  /** Every seed that has a phrase is recovered from it. */
  lemma DecodeOfEncode(c: Codec, seed: seq<nat>)
    requires c.Good() && Below(seed, 256) && Encode(c, seed).Ok?
    ensures Decode(c, Encode(c, seed).value) == Ok(seed)
  {
    NormalisedSpelling(c, Groups(c, seed));
    IndicesOfSpell(c, Groups(c, seed));
    UnpackedGroups(c, seed);
    assert (seed + [c.Checksum(seed)])[..SEED_BYTES] == seed;
  }

  /** 24 groups are recovered from the bytes they unpack to. */
  lemma GroupsOfUnpacked(groups: seq<nat>)
    requires |groups| == PHRASE_WORDS && Below(groups, WORD_BASE)
    ensures var bytes := Unpacked(groups);
      && Below(bytes, 256)
      && Digits(Value(bytes[..SEED_BYTES], 256) * 256 + bytes[SEED_BYTES], WORD_BASE, PHRASE_WORDS) == groups
  {
    var n, bytes := Value(groups, WORD_BASE), Unpacked(groups);
    DigitsBelow(n, 256, SEED_BYTES + 1);
    SmallPowersOfTwo();
    Regroup(groups, WORD_BASE, 11, 256, 8, SEED_BYTES + 1);
    assert bytes == bytes[..SEED_BYTES] + [bytes[SEED_BYTES]];
    ValueAppend(bytes[..SEED_BYTES], bytes[SEED_BYTES], 256);
  }

  /** Whatever phrase is accepted, the seed it gives is written as that phrase in lower case with
      single blanks: accepted normalised phrases and encodable seeds correspond one to one. */
  lemma EncodeOfDecode(c: Codec, phrase: string)
    requires c.Good() && Decode(c, phrase).Ok?
    ensures var seed := Decode(c, phrase).value;
      |seed| == SEED_BYTES && Below(seed, 256) && Encode(c, seed) == Ok(Join(Normalised(c, phrase)))
  {
    var ws := Normalised(c, phrase);
    var groups := Indices(c, ws);
    var bytes, seed := Unpacked(groups), Decode(c, phrase).value;
    assert seed == bytes[..SEED_BYTES] && c.Checksum(seed) == bytes[SEED_BYTES];
    assert Groups(c, seed) == groups by {
      IndicesBelow(c, ws);
      GroupsOfUnpacked(groups);
    }
    assert Below(seed, 256) by {
      IndicesBelow(c, ws);
      GroupsOfUnpacked(groups);
    }
    SpellOfIndices(c, ws);
  }

  // ---------------------------------------------------------------- which phrases are accepted

  /** The phrase has 24 words of the list, in any case and with any white space, and the number they write in
      base 2048 is that of the 32 bytes of the seed, followed by the first byte of its hash. */
  ghost predicate Writes(c: Codec, phrase: string, places: seq<nat>, seed: seq<nat>) {
    var ws := Fields(Lower(phrase, c.lower), c.blank);
    && |ws| == |places| == 24 && |seed| == 32 && Below(seed, 256)
    && (forall i :: 0 <= i < 24 ==> places[i] < |c.words| && ws[i] == c.words[places[i]])
    && Value(places, 2048) == Value(seed, 256) * 256 + c.hash(seed) % 256
  }

  lemma ValueOfGroups(c: Codec, seed: seq<nat>)
    requires |seed| == SEED_BYTES && Below(seed, 256)
    ensures Value(Groups(c, seed), WORD_BASE) == Payload(c, seed)
  {
    ValueAppend(seed, c.Checksum(seed), 256);
    ValueBound(seed + [c.Checksum(seed)], 256);
    WordSpaceIsByteSpace();
    ValueOfDigits(Payload(c, seed), WORD_BASE, PHRASE_WORDS);
  }

  lemma GroupsOfWritten(c: Codec, phrase: string, places: seq<nat>, seed: seq<nat>)
    requires c.Good() && Writes(c, phrase, places, seed)
    ensures Groups(c, seed) == places && Normalised(c, phrase) == Spell(c, places) && Encode(c, seed).Ok?
  {
    DigitsOfValue(places, WORD_BASE);
    assert Normalised(c, phrase) == Spell(c, places);
  }

  lemma SameWordsSameSeed(c: Codec, phrase: string, phrase': string)
    requires Normalised(c, phrase) == Normalised(c, phrase')
    ensures Decode(c, phrase) == Decode(c, phrase')
  {
  }

  lemma DecodedIsWritten(c: Codec, phrase: string, seed: seq<nat>)
    requires c.Good() && Decode(c, phrase) == Ok(seed)
    ensures Writes(c, phrase, Groups(c, seed), seed)
  {
    var ws, groups := Normalised(c, phrase), Groups(c, seed);
    EncodeOfDecode(c, phrase);
    SpellOfIndices(c, ws);
    NormalisedSpelling(c, Indices(c, ws));
    NormalisedSpelling(c, groups);
    assert Spell(c, groups) == ws;
    ValueOfGroups(c, seed);
  }

  /** A phrase is accepted with a seed if and only if it writes the seed and the first byte of its hash. */
  lemma AcceptedIff(c: Codec, phrase: string, seed: seq<nat>)
    requires c.Good()
    ensures Decode(c, phrase) == Ok(seed) <==> exists places :: Writes(c, phrase, places, seed)
  {
    if Decode(c, phrase) == Ok(seed) {
      DecodedIsWritten(c, phrase, seed);
    }
    if places :| Writes(c, phrase, places, seed) {
      GroupsOfWritten(c, phrase, places, seed);
      NormalisedSpelling(c, places);
      DecodeOfEncode(c, seed);
      SameWordsSameSeed(c, phrase, Encode(c, seed).value);
    }
  }

  /** Why a phrase is refused: by the number of its words, by a word that is not in the list, or by the
      checksum, in this order. */
  lemma RefusedFor(c: Codec, phrase: string)
    requires c.Good()
    ensures var ws, r := Fields(Lower(phrase, c.lower), c.blank), Decode(c, phrase);
      && (r == Err(BadWordCount) <==> |ws| != 24)
      && (r == Err(UnknownWord) <==> |ws| == 24 && exists i :: 0 <= i < 24 && ws[i] !in c.words)
      && (r == Err(BadChecksum) <==>
            && |ws| == 24 && (forall i :: 0 <= i < 24 ==> ws[i] in c.words)
            && forall places, seed :: !Writes(c, phrase, places, seed))
  {
    WordMapInverts(c.words);
    if r :| Decode(c, phrase) == Ok(r) {
      AcceptedIff(c, phrase, r);
    }
    if places, seed :| Writes(c, phrase, places, seed) {
      AcceptedIff(c, phrase, seed);
    }
  }

  // ---------------------------------------------------------------- which seeds have a phrase

  const ALL_ONES: seq<nat> := seq(SEED_BYTES, _ => 255)

  /** A seed of one bits starts with the largest group whatever its checksum. */
  lemma AllOnesGroup(c: Codec)
    ensures Below(ALL_ONES, 256) && Groups(c, ALL_ONES)[0] == WORD_BASE - 1
  {
    LeadingOnes(SEED_BYTES, PHRASE_WORDS, c.Checksum(ALL_ONES));
  }

  lemma LeadingOnes(bytes: nat, words: nat, checksum: nat)
    requires 8 * bytes + 8 == 11 * words && words > 1 && checksum < 256
    ensures Digits(Value(seq(bytes, _ => 255), 256) * 256 + checksum, WORD_BASE, words)[0] == WORD_BASE - 1
  {
    var bits := 11 * (words - 1);
    var p := Pow(2, bits);
    SmallPowersOfTwo();
    AllOnesValue(bytes);
    PowPow(2, 8, bytes);
    PowPow(2, 11, words - 1);
    assert Pow(256, bytes) == 8 * p by {
      assert Pow(2, bits + 3) == 2 * Pow(2, bits + 2) && Pow(2, bits + 2) == 2 * Pow(2, bits + 1);
    }
    assert p >= 256 by {
      PowAdd(2, 8, bits - 8);
      MulMonotone(1, Pow(2, bits - 8), 256);
    }
    LeadingDigit(2048 * p - 256 + checksum, WORD_BASE, words, WORD_BASE - 1);
  }

  lemma {:induction false} AllOnesValue(k: nat)
    ensures Value(seq(k, _ => 255), 256) == Pow(256, k) - 1
  {
    if k > 0 {
      assert seq(k, _ => 255)[..k - 1] == seq(k - 1, _ => 255);
      AllOnesValue(k - 1);
    }
  }

  /** Among lists of at most 2048 words, exactly those of 2048 spell every seed. */
  lemma EncodeTotalIff(c: Codec)
    requires |c.words| <= WORD_BASE
    ensures (forall seed :: |seed| == SEED_BYTES && Below(seed, 256) ==> Encode(c, seed).Ok?)
       <==> |c.words| == WORD_BASE
  {
    if |c.words| == WORD_BASE {
      forall seed | |seed| == SEED_BYTES && Below(seed, 256)
        ensures Encode(c, seed).Ok?
      {
        DigitsBelow(Payload(c, seed), WORD_BASE, PHRASE_WORDS);
      }
    } else {
      AllOnesGroup(c);
      assert Encode(c, ALL_ONES) == Err(IndexOutOfRange);
    }
  }

  /** So the embedded list leaves seeds without a phrase. */
  lemma EmbeddedListIsPartial(c: Codec)
    requires |c.words| == EMBEDDED_WORDS
    ensures exists seed :: |seed| == SEED_BYTES && Below(seed, 256) && Encode(c, seed) == Err(IndexOutOfRange)
  {
    AllOnesGroup(c);
  }

  // ---------------------------------------------------------------- how many last words fit

  /** The seed bytes of 23 groups and three more bits. */
  function SeedOf(prefix: seq<nat>, e: nat): seq<nat> {
    Digits(Value(prefix, WORD_BASE) * 8 + e, 256, SEED_BYTES)
  }

  /** The last index that fits 23 groups and the three bits e. */
  function LastIndex(c: Codec, prefix: seq<nat>, e: nat): nat {
    e * 256 + c.Checksum(SeedOf(prefix, e))
  }

  /** The words that complete a phrase. */
  ghost function LastWords(c: Codec, prefix: seq<nat>): set<nat>
    requires Below(prefix, |c.words|)
  {
    set x | 0 <= x < |c.words| && Decode(c, Join(Spell(c, prefix + [x]))).Ok?
  }

  function Choices(c: Codec, prefix: seq<nat>, k: nat): set<nat> {
    set e | 0 <= e < k :: LastIndex(c, prefix, e)
  }

  lemma {:induction false} ChoicesCount(c: Codec, prefix: seq<nat>, k: nat)
    ensures |Choices(c, prefix, k)| == k
  {
    if k > 0 {
      ChoicesCount(c, prefix, k - 1);
      var last := LastIndex(c, prefix, k - 1);
      assert Choices(c, prefix, k) == Choices(c, prefix, k - 1) + {last};
      assert last !in Choices(c, prefix, k - 1);
    }
  }

  lemma LastWordFits(c: Codec, prefix: seq<nat>, x: nat)
    requires c.Good() && |prefix| == PHRASE_WORDS - 1 && Below(prefix, |c.words|) && x < |c.words|
    ensures Decode(c, Join(Spell(c, prefix + [x]))).Ok? <==> x == LastIndex(c, prefix, x / 256)
  {
    var groups := prefix + [x];
    NormalisedSpelling(c, groups);
    IndicesOfSpell(c, groups);
    ValueAppend(prefix, x, WORD_BASE);
    var n := Value(groups, WORD_BASE);
    assert n / 256 == Value(prefix, WORD_BASE) * 8 + x / 256 && n % 256 == x % 256;
    assert Unpacked(groups) == Digits(n / 256, 256, SEED_BYTES) + [n % 256];
    assert Unpacked(groups)[..SEED_BYTES] == SeedOf(prefix, x / 256);
  }

  /** Any 23 words of a full list have exactly eight completions, one for each value of the three
      remaining bits of the seed; a shorter list never has more. */
  lemma EightLastWords(c: Codec, prefix: seq<nat>)
    requires c.Good() && |prefix| == PHRASE_WORDS - 1 && Below(prefix, |c.words|)
    ensures LastWords(c, prefix) == set e | 0 <= e < 8 && LastIndex(c, prefix, e) < |c.words| :: LastIndex(c, prefix, e)
    ensures |LastWords(c, prefix)| <= 8
    ensures |c.words| == WORD_BASE ==> |LastWords(c, prefix)| == 8
  {
    forall x | 0 <= x < |c.words|
      ensures x in LastWords(c, prefix) <==> x == LastIndex(c, prefix, x / 256)
    {
      LastWordFits(c, prefix, x);
    }
    forall e | 0 <= e < 8
      ensures LastIndex(c, prefix, e) / 256 == e && LastIndex(c, prefix, e) < WORD_BASE
    {
    }
    assert LastWords(c, prefix) <= Choices(c, prefix, 8);
    ChoicesCount(c, prefix, 8);
    SubsetSize(LastWords(c, prefix), Choices(c, prefix, 8));
    if |c.words| == WORD_BASE {
      assert LastWords(c, prefix) == Choices(c, prefix, 8);
    }
  }

  lemma {:induction false} SubsetSize(a: set<nat>, b: set<nat>)
    requires a <= b
    ensures |a| <= |b|
  {
    if a != {} {
      var x :| x in a;
      SubsetSize(a - {x}, b - {x});
    }
  }
}
