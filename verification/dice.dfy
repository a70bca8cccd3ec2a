/** The dice-to-mnemonic arithmetic of the seed-phrase tool: four dice pick a
    word index, eleven rolled words and a checksum word make a phrase, and
    `findValidChecksumWords` filters the wordlist for a twelfth word. The word
    indices are the 11-bit indices of BIP-39, section "Generating the mnemonic". */
module SeedPhraseDice {

  import opened Wrappers
  import opened JsNumbers

  /** Size of the BIP-39 English wordlist. */
  const WordlistSize: nat := 2048
  /** Words of the phrase chosen by dice; the twelfth is the checksum word. */
  const RolledWords: nat := 11
  /** `1 + (20-1)*1000 + (10-1)*100 + (10-1)*10 + (10-1)` index values the dice reach. */
  const DiceOutcomes: nat := 20000

  /** ASCII lower-casing, `toLowerCase` on the characters this tool sees. */
  function Lower(s: string): (r: string)
    ensures |r| == |s|
    ensures forall i :: 0 <= i < |s| ==> r[i] == if 'A' <= s[i] <= 'Z' then (s[i] as int + 32) as char else s[i]
  {
    seq(|s|, i requires 0 <= i < |s| => if 'A' <= s[i] <= 'Z' then (s[i] as int + 32) as char else s[i])
  }

  /** The BIP-39 English wordlist: 2048 distinct lower-case words. */
  predicate IsWordlist(wordlist: seq<string>) {
    && |wordlist| == WordlistSize
    && (forall i, j :: 0 <= i < j < |wordlist| ==> wordlist[i] != wordlist[j])
    && (forall i :: 0 <= i < |wordlist| ==> Lower(wordlist[i]) == wordlist[i])
  }

  // ---------------------------------------------------------------- dice

  /** One set of rolls: a d20 and three d10s. */
  datatype Rolls = Rolls(d20: int, d10a: int, d10b: int, d10c: int)

  predicate ValidRolls(r: Rolls) {
    1 <= r.d20 <= 20 && 1 <= r.d10a <= 10 && 1 <= r.d10b <= 10 && 1 <= r.d10c <= 10
  }

  /** `diceToIndex`: a mixed-radix number, the d20 giving thousands and the
      d10s hundreds, tens and units. */
  function DiceToIndex(d20: int, d10a: int, d10b: int, d10c: int): int {
    (d20 - 1) * 1000 + ((d10a - 1) * 100 + (d10b - 1) * 10 + (d10c - 1))
  }

  /** The rolls that give an index: the mixed-radix digits of `i`. */
  function IndexToDice(i: int): (r: Rolls)
    requires 0 <= i < DiceOutcomes
    ensures ValidRolls(r)
    ensures DiceToIndex(r.d20, r.d10a, r.d10b, r.d10c) == i
  {
    var thousands, rest := i / 1000, i % 1000;
    var hundreds, units := rest / 100, rest % 100;
    assert i == thousands * 1000 + rest && rest == hundreds * 100 + units;
    Rolls(thousands + 1, hundreds + 1, units / 10 + 1, units % 10 + 1)
  }

  /** Valid rolls give an index in 0..19999, and the index gives the rolls back:
      `diceToIndex` is a bijection between roll sets and 0..19999. */
  lemma DiceToIndexRoundTrip(r: Rolls)
    requires ValidRolls(r)
    ensures 0 <= DiceToIndex(r.d20, r.d10a, r.d10b, r.d10c) < DiceOutcomes
    ensures IndexToDice(DiceToIndex(r.d20, r.d10a, r.d10b, r.d10c)) == r
  {
    var i := DiceToIndex(r.d20, r.d10a, r.d10b, r.d10c);
    var low := (r.d10a - 1) * 100 + (r.d10b - 1) * 10 + (r.d10c - 1);
    var units := (r.d10b - 1) * 10 + (r.d10c - 1);
    assert i / 1000 == r.d20 - 1 && i % 1000 == low;
    assert low / 100 == r.d10a - 1 && low % 100 == units;
    assert units / 10 == r.d10b - 1 && units % 10 == r.d10c - 1;
  }

  /** Different valid rolls give different indices. */
  lemma DiceToIndexInjective(r: Rolls, s: Rolls)
    requires ValidRolls(r) && ValidRolls(s)
    requires DiceToIndex(r.d20, r.d10a, r.d10b, r.d10c) == DiceToIndex(s.d20, s.d10a, s.d10b, s.d10c)
    ensures r == s
  {
    DiceToIndexRoundTrip(r);
    DiceToIndexRoundTrip(s);
  }

  /** The message `validateRoll` throws. */
  function RollMessage(dice: string): string {
    "Invalid " + dice + " roll: must be 1-" + (if dice == "d20" then "20" else "10")
  }

  /** `validateRoll`: `parseInt` the entry, then refuse `NaN`, anything below 1,
      and anything above the die's faces; a die name other than `d20` or `d10` has
      no upper bound. */
  function ValidateRoll(roll: string, dice: string): (r: Result<int, string>)
    ensures r.Ok? ==> ParseInt(roll, 0) == Some(r.value) && 1 <= r.value
    ensures r.Ok? && dice == "d20" ==> r.value <= 20
    ensures r.Ok? && dice == "d10" ==> r.value <= 10
    ensures r.Err? <==> ParseInt(roll, 0).None? || ParseInt(roll, 0).value < 1
                        || (dice == "d20" && ParseInt(roll, 0).value > 20)
                        || (dice == "d10" && ParseInt(roll, 0).value > 10)
    ensures r.Err? ==> r.error == RollMessage(dice)
  {
    var num := ParseInt(roll, 0);
    if num.None? || num.value < 1 || (dice == "d20" && num.value > 20) || (dice == "d10" && num.value > 10)
    then Err(RollMessage(dice))
    else Ok(num.value)
  }

  /** Every face of a die, typed as a number, is accepted as itself; for a die
      name other than `d20` and `d10` every positive number is. */
  lemma ValidateRollAcceptsFaces(n: nat, dice: string)
    requires 1 <= n
    requires dice == "d20" ==> n <= 20
    requires dice == "d10" ==> n <= 10
    ensures ValidateRoll(NatToString(n, 10), dice) == Ok(n)
  {
    ParsePrintedDecimal(n);
  }

  /** `promptForRoll` once the four entries are read: validate them in order, then
      combine them. */
  function PromptForRoll(d20: string, d10a: string, d10b: string, d10c: string): (r: Result<int, string>)
    ensures r.Ok? ==> 0 <= r.value < DiceOutcomes
  {
    var a :- ValidateRoll(d20, "d20");
    var b :- ValidateRoll(d10a, "d10");
    var c :- ValidateRoll(d10b, "d10");
    var d :- ValidateRoll(d10c, "d10");
    DiceToIndexRoundTrip(Rolls(a, b, c, d));
    Ok(DiceToIndex(a, b, c, d))
  }

  /** Four entries give an index exactly when `validateRoll` accepts each of
      them, and then the index of the numbers read; otherwise the message of the
      first refused entry: the d20's, or else a d10's. */
  lemma PromptForRollOutcome(d20: string, d10a: string, d10b: string, d10c: string)
    ensures PromptForRoll(d20, d10a, d10b, d10c).Ok?
            <==> ValidateRoll(d20, "d20").Ok? && ValidateRoll(d10a, "d10").Ok?
                 && ValidateRoll(d10b, "d10").Ok? && ValidateRoll(d10c, "d10").Ok?
    ensures PromptForRoll(d20, d10a, d10b, d10c).Ok? ==>
              PromptForRoll(d20, d10a, d10b, d10c).value
              == DiceToIndex(ValidateRoll(d20, "d20").value, ValidateRoll(d10a, "d10").value,
                             ValidateRoll(d10b, "d10").value, ValidateRoll(d10c, "d10").value)
    ensures PromptForRoll(d20, d10a, d10b, d10c).Err? ==>
              PromptForRoll(d20, d10a, d10b, d10c).error
              == if ValidateRoll(d20, "d20").Err? then RollMessage("d20") else RollMessage("d10")
  {
  }

  /** The index a set of entries gives, or the message it is refused with. */
  function EntryIndex(e: RollEntry): Result<int, string> {
    PromptForRoll(e.d20, e.d10a, e.d10b, e.d10c)
  }

  /** The four entries that type out a set of rolls. */
  datatype RollEntry = RollEntry(d20: string, d10a: string, d10b: string, d10c: string)

  function Typed(r: Rolls): RollEntry
    requires ValidRolls(r)
  {
    RollEntry(NatToString(r.d20, 10), NatToString(r.d10a, 10), NatToString(r.d10b, 10), NatToString(r.d10c, 10))
  }

  /** Typing valid rolls gives their index. */
  lemma PromptForTypedRolls(r: Rolls)
    requires ValidRolls(r)
    ensures var e := Typed(r); PromptForRoll(e.d20, e.d10a, e.d10b, e.d10c) == Ok(DiceToIndex(r.d20, r.d10a, r.d10b, r.d10c))
  {
    ValidateRollAcceptsFaces(r.d20, "d20");
    ValidateRollAcceptsFaces(r.d10a, "d10");
    ValidateRollAcceptsFaces(r.d10b, "d10");
    ValidateRollAcceptsFaces(r.d10c, "d10");
  }

  // ------------------------------------------------- the word a roll picks

  /** `wordlist[index]` as written at line 100: `undefined` outside the list. */
  function WordAtAsWritten(wordlist: seq<string>, index: int): (w: Option<string>)
    ensures w.Some? <==> 0 <= index < |wordlist|
    ensures w.Some? ==> w.value == wordlist[index]
  {
    if 0 <= index < |wordlist| then Some(wordlist[index]) else None
  }

  /** As written, any d20 roll of 4 or more (17 faces in 20) picks an index of at
      least 3000 and so no word at all; rolling 20, 10, 10, 10 gives index 19999. */
  lemma RollsBeyondWordlist(wordlist: seq<string>, r: Rolls)
    requires IsWordlist(wordlist)
    requires ValidRolls(r) && r.d20 >= 4
    ensures DiceToIndex(r.d20, r.d10a, r.d10b, r.d10c) >= 3000
    ensures WordAtAsWritten(wordlist, DiceToIndex(r.d20, r.d10a, r.d10b, r.d10c)) == None
    ensures DiceToIndex(20, 10, 10, 10) == 19999 && WordAtAsWritten(wordlist, 19999) == None
  {
  }

  /** Why a set of entries gives no word. */
  datatype RollError = InvalidRoll(message: string) | OutsideWordlist(index: int)

  /** The word a set of entries picks, corrected: an index the wordlist does not
      reach is refused (the rolls are to be thrown again) rather than yielding
      `undefined`. */
  function RollToWord(wordlist: seq<string>, e: RollEntry): (r: Result<string, RollError>)
    ensures r.Ok? ==> r.value in wordlist
    ensures r.Err? && r.error.OutsideWordlist? ==> |wordlist| <= r.error.index < DiceOutcomes
  {
    match PromptForRoll(e.d20, e.d10a, e.d10b, e.d10c)
    case Err(m) => Err(InvalidRoll(m))
    case Ok(i) => if i < |wordlist| then Ok(wordlist[i]) else Err(OutsideWordlist(i))
  }

  /** Every word of the list is reachable, by the rolls whose index is its
      position, and by no other accepted rolls: with rejection each word has the
      same chance. */
  lemma RollToWordIsUniform(wordlist: seq<string>, i: nat, r: Rolls)
    requires IsWordlist(wordlist) && i < WordlistSize
    ensures ValidRolls(IndexToDice(i)) && RollToWord(wordlist, Typed(IndexToDice(i))) == Ok(wordlist[i])
    ensures ValidRolls(r) && RollToWord(wordlist, Typed(r)) == Ok(wordlist[i]) ==> r == IndexToDice(i)
  {
    PromptForTypedRolls(IndexToDice(i));
    if ValidRolls(r) && RollToWord(wordlist, Typed(r)) == Ok(wordlist[i]) {
      PromptForTypedRolls(r);
      var j := DiceToIndex(r.d20, r.d10a, r.d10b, r.d10c);
      assert wordlist[j] == wordlist[i];
      DiceToIndexInjective(r, IndexToDice(i));
    }
  }

  // ---------------------------------------------------------- word index

  /** `Array.prototype.indexOf`: the first position holding `x`, or -1. */
  function IndexOf(list: seq<string>, x: string): (r: int)
    ensures -1 <= r < |list|
    ensures r == -1 <==> x !in list
    ensures r >= 0 ==> list[r] == x && forall j :: 0 <= j < r ==> list[j] != x
  {
    if |list| == 0 then -1
    else if list[0] == x then 0
    else
      var r := IndexOf(list[1..], x);
      if r == -1 then -1 else r + 1
  }

  /** `wordToIndex`: the position of the lower-cased word, or -1. */
  function WordToIndex(wordlist: seq<string>, word: string): int {
    IndexOf(wordlist, Lower(word))
  }

  /** Looking up the word at a position gives the position back, in any case. */
  lemma WordToIndexRoundTrip(wordlist: seq<string>, i: nat, word: string)
    requires IsWordlist(wordlist) && i < |wordlist|
    requires Lower(word) == wordlist[i]
    ensures WordToIndex(wordlist, word) == i
  {
  }

  /** A word has an index exactly when its lower-cased form is in the list. */
  lemma WordToIndexFound(wordlist: seq<string>, word: string)
    ensures WordToIndex(wordlist, word) >= 0 <==> Lower(word) in wordlist
    ensures WordToIndex(wordlist, word) >= 0 ==> wordlist[WordToIndex(wordlist, word)] == Lower(word)
  {
  }

  // ------------------------------------------------------ checksum index

  predicate IsHexDigest(h: string) {
    |h| == 64 && AllDigits(h, 16)
  }

  function Abs(x: int): nat {
    if x < 0 then -x else x
  }

  /** `hash.slice(0, 4)`. */
  function DigestHead(digest: string): (head: string)
    ensures |head| == if |digest| < 4 then |digest| else 4
    ensures head == digest[..|head|]
  {
    if |digest| < 4 then digest else digest[..4]
  }

  /** JavaScript's `v % size`, which keeps the sign of the dividend. */
  function JsRemainder(v: int, size: nat): (r: int)
    requires size > 0
    ensures -(size as int) < r < size
    ensures v >= 0 ==> r >= 0
    ensures v <= 0 ==> r <= 0
    ensures Abs(r) == Abs(v) % size
  {
    if v >= 0 then v % size else -((-v) % size)
  }

  /** `parseInt(hash.slice(0, 4), 16) % wordlist.length`, `None` for `NaN`
      (and for an empty list, where `%` gives `NaN` too). */
  function ChecksumIndex(digest: string, size: nat): (r: Option<int>)
    ensures r.Some? <==> ParseInt(DigestHead(digest), 16).Some? && size > 0
    ensures r.Some? ==> -(size as int) < r.value < size
    ensures r.Some? && ParseInt(DigestHead(digest), 16).value >= 0 ==> r.value >= 0
    ensures r.Some? && ParseInt(DigestHead(digest), 16).value <= 0 ==> r.value <= 0
    ensures r.Some? ==> var v := ParseInt(DigestHead(digest), 16).value;
                        Abs(r.value) == Abs(v) % size
  {
    match ParseInt(DigestHead(digest), 16)
    case None => None
    case Some(v) => if size == 0 then None else Some(JsRemainder(v, size))
  }

  /** For a hex digest the checksum index is a valid position in the list. */
  lemma ChecksumIndexInRange(digest: string, wordlist: seq<string>)
    requires IsHexDigest(digest) && IsWordlist(wordlist)
    ensures ChecksumIndex(digest, |wordlist|).Some?
    ensures 0 <= ChecksumIndex(digest, |wordlist|).value < |wordlist|
  {
    var head := DigestHead(digest);
    assert AllDigits(head, 16);
    ParseDigits(head, 16);
    var v := DigitsValue(head, 16);
    assert ChecksumIndex(digest, |wordlist|) == Some(JsRemainder(v, |wordlist|));
  }

  // ---------------------------------------------------- phrase generation

  /** `Array.prototype.join(sep)`. */
  function JoinWords(words: seq<string>, sep: string): string
    decreases |words|
  {
    if |words| == 0 then ""
    else if |words| == 1 then words[0]
    else JoinWords(words[..|words| - 1], sep) + sep + words[|words| - 1]
  }

  /** The strings `join` writes for the entries of an array that may hold
      `undefined`: a missing word is written as the empty string. */
  function Rendered(words: seq<Option<string>>): (s: seq<string>)
    ensures |s| == |words|
    ensures forall i :: 0 <= i < |words| ==> s[i] == if words[i].Some? then words[i].value else ""
  {
    seq(|words|, i requires 0 <= i < |words| => if words[i].Some? then words[i].value else "")
  }

  /** The word each set of entries picks, in turn, stopping at the first set
      that gives none. */
  function RolledWordsSpec<W, E>(entries: seq<RollEntry>, pick: RollEntry -> Result<W, E>): (r: Result<seq<W>, E>)
    ensures r.Ok? <==> forall i :: 0 <= i < |entries| ==> pick(entries[i]).Ok?
    ensures r.Ok? ==> |r.value| == |entries|
                      && forall i :: 0 <= i < |entries| ==> r.value[i] == pick(entries[i]).value
    decreases |entries|
  {
    if |entries| == 0 then Ok([])
    else
      var front := entries[..|entries| - 1];
      assert forall i :: 0 <= i < |front| ==> front[i] == entries[i];
      match RolledWordsSpec(front, pick)
      case Err(e) => Err(e)
      case Ok(words) =>
        match pick(entries[|entries| - 1])
        case Err(e) => Err(e)
        case Ok(w) => Ok(words + [w])
  }

  /** A failure is the failure of the first set of entries that gives no word. */
  lemma {:induction false} RolledWordsFirstError<W, E>(entries: seq<RollEntry>, pick: RollEntry -> Result<W, E>)
    requires RolledWordsSpec(entries, pick).Err?
    ensures exists i :: 0 <= i < |entries| && pick(entries[i]) == Err(RolledWordsSpec(entries, pick).error)
                        && forall j :: 0 <= j < i ==> pick(entries[j]).Ok?
    decreases |entries|
  {
    var front := entries[..|entries| - 1];
    assert forall i :: 0 <= i < |front| ==> front[i] == entries[i];
    if RolledWordsSpec(front, pick).Err? {
      RolledWordsFirstError(front, pick);
    } else {
      assert pick(entries[|entries| - 1]) == Err(RolledWordsSpec(entries, pick).error);
    }
  }

  /** Once a set of entries fails, later entries do not change the outcome. */
  lemma {:induction false} RolledWordsStop<W, E>(entries: seq<RollEntry>, pick: RollEntry -> Result<W, E>, k: nat)
    requires k <= |entries|
    requires RolledWordsSpec(entries[..k], pick).Err?
    ensures RolledWordsSpec(entries, pick) == RolledWordsSpec(entries[..k], pick)
    decreases |entries|
  {
    if k < |entries| {
      var front := entries[..|entries| - 1];
      assert front[..k] == entries[..k];
      RolledWordsStop(front, pick, k);
    } else {
      assert entries[..k] == entries;
    }
  }

  /** One more accepted set of entries adds its word to the words of the ones before. */
  lemma RolledWordsSnoc<W, E>(entries: seq<RollEntry>, pick: RollEntry -> Result<W, E>, i: nat, words: seq<W>)
    requires i < |entries| && RolledWordsSpec(entries[..i], pick) == Ok(words) && pick(entries[i]).Ok?
    ensures RolledWordsSpec(entries[..i + 1], pick) == Ok(words + [pick(entries[i]).value])
  {
    assert entries[..i + 1][..i] == entries[..i];
  }

  /** A refused set of entries makes the words up to it fail with its error. */
  lemma RolledWordsSnocFails<W, E>(entries: seq<RollEntry>, pick: RollEntry -> Result<W, E>, i: nat)
    requires i < |entries| && RolledWordsSpec(entries[..i], pick).Ok? && pick(entries[i]).Err?
    ensures RolledWordsSpec(entries[..i + 1], pick) == Err(pick(entries[i]).error)
  {
    assert entries[..i + 1][..i] == entries[..i];
  }

  /** Lines 107-110: the word at the checksum index of a phrase's digest. */
  function ChecksumWord(wordlist: seq<string>, phrase: string, sha256Hex: string -> string): (w: string)
    requires IsWordlist(wordlist)
    requires forall s :: IsHexDigest(sha256Hex(s))
    ensures var checksum := ChecksumIndex(sha256Hex(phrase), |wordlist|);
            checksum.Some? && 0 <= checksum.value < |wordlist| && w == wordlist[checksum.value]
  {
    var digest := sha256Hex(phrase);
    ChecksumIndexInRange(digest, wordlist);
    wordlist[ChecksumIndex(digest, |wordlist|).value]
  }

  /** The word each set of entries picks as written (lines 99-101): the index
      looked up in the list, `undefined` past its end; only an entry that
      `validateRoll` refuses stops the loop. */
  function PickAsWritten(wordlist: seq<string>): RollEntry -> Result<Option<string>, string> {
    e => match EntryIndex(e)
         case Err(m) => Err(m)
         case Ok(i) => Ok(WordAtAsWritten(wordlist, i))
  }

  /** `generatePhrase` without the prompts, as written: the eleven looked-up
      words, `undefined` for an index past the list, then the checksum word of
      the digest of the eleven joined by spaces. */
  function GeneratePhraseSpec(wordlist: seq<string>, entries: seq<RollEntry>, sha256Hex: string -> string)
    : (r: Result<seq<Option<string>>, string>)
    requires IsWordlist(wordlist) && |entries| == RolledWords
    requires forall s :: IsHexDigest(sha256Hex(s))
    ensures r.Ok? ==> |r.value| == RolledWords + 1 && r.value[RolledWords].Some?
                      && r.value[RolledWords].value in wordlist
  {
    match RolledWordsSpec(entries, PickAsWritten(wordlist))
    case Err(m) => Err(m)
    case Ok(words) => Ok(words + [Some(ChecksumWord(wordlist, JoinWords(Rendered(words), " "), sha256Hex))])
  }

  /** As written, generation fails exactly when `validateRoll` refuses an entry,
      with the first refusal's message; an index past the list never stops it. */
  lemma GeneratePhraseFails(wordlist: seq<string>, entries: seq<RollEntry>, sha256Hex: string -> string)
    requires IsWordlist(wordlist) && |entries| == RolledWords
    requires forall s :: IsHexDigest(sha256Hex(s))
    ensures GeneratePhraseSpec(wordlist, entries, sha256Hex).Err?
            <==> exists i :: 0 <= i < RolledWords && EntryIndex(entries[i]).Err?
    ensures GeneratePhraseSpec(wordlist, entries, sha256Hex).Err? ==>
              exists i :: 0 <= i < RolledWords && EntryIndex(entries[i]) == Err(GeneratePhraseSpec(wordlist, entries, sha256Hex).error)
                          && forall j :: 0 <= j < i ==> EntryIndex(entries[j]).Ok?
  {
    var pick := PickAsWritten(wordlist);
    assert forall e :: pick(e).Ok? <==> EntryIndex(e).Ok?;
    assert forall e :: pick(e).Err? ==> pick(e).error == EntryIndex(e).error;
    var spec := GeneratePhraseSpec(wordlist, entries, sha256Hex);
    var words := RolledWordsSpec(entries, pick);
    assert spec.Err? <==> words.Err?;
    if words.Err? {
      assert spec.error == words.error;
      RolledWordsFirstError(entries, pick);
      var i :| 0 <= i < |entries| && pick(entries[i]) == Err(words.error)
               && forall j :: 0 <= j < i ==> pick(entries[j]).Ok?;
      assert EntryIndex(entries[i]) == Err(spec.error);
    }
  }

  /** As written, a generated phrase holds, for each of the eleven sets of rolls,
      the list's entry at their index (`undefined` past its end), then the word
      at the checksum index of the digest of those eleven as `join` writes them. */
  lemma GeneratePhraseWords(wordlist: seq<string>, entries: seq<RollEntry>, sha256Hex: string -> string)
    requires IsWordlist(wordlist) && |entries| == RolledWords
    requires forall s :: IsHexDigest(sha256Hex(s))
    requires GeneratePhraseSpec(wordlist, entries, sha256Hex).Ok?
    ensures var phrase := GeneratePhraseSpec(wordlist, entries, sha256Hex).value;
            && |phrase| == RolledWords + 1
            && (forall i :: 0 <= i < RolledWords ==>
                  EntryIndex(entries[i]).Ok? && phrase[i] == WordAtAsWritten(wordlist, EntryIndex(entries[i]).value))
            && var checksum := ChecksumIndex(sha256Hex(JoinWords(Rendered(phrase[..RolledWords]), " ")), |wordlist|);
               checksum.Some? && 0 <= checksum.value < |wordlist| && phrase[RolledWords] == Some(wordlist[checksum.value])
  {
    var pick := PickAsWritten(wordlist);
    var words := RolledWordsSpec(entries, pick).value;
    var phrase := GeneratePhraseSpec(wordlist, entries, sha256Hex).value;
    assert phrase[..RolledWords] == words;
    forall i | 0 <= i < RolledWords
      ensures EntryIndex(entries[i]).Ok? && phrase[i] == WordAtAsWritten(wordlist, EntryIndex(entries[i]).value)
    {
      assert phrase[i] == words[i] == pick(entries[i]).value;
    }
  }

  /** Typing the highest roll of every die gives index 19999. */
  lemma HighestRollsIndex()
    ensures EntryIndex(Typed(Rolls(20, 10, 10, 10))) == Ok(19999)
  {
    PromptForTypedRolls(Rolls(20, 10, 10, 10));
  }

  /** As written, rolling 20, 10, 10, 10 for the first word (index 19999) with
      the other entries accepted completes a phrase whose first word is
      `undefined`, written as the empty string. */
  lemma GeneratePhraseUndefinedWord(wordlist: seq<string>, entries: seq<RollEntry>, sha256Hex: string -> string)
    requires IsWordlist(wordlist) && |entries| == RolledWords
    requires forall s :: IsHexDigest(sha256Hex(s))
    requires entries[0] == Typed(Rolls(20, 10, 10, 10))
    requires forall i :: 1 <= i < RolledWords ==> EntryIndex(entries[i]).Ok?
    ensures GeneratePhraseSpec(wordlist, entries, sha256Hex).Ok?
    ensures GeneratePhraseSpec(wordlist, entries, sha256Hex).value[0] == None
    ensures Rendered(GeneratePhraseSpec(wordlist, entries, sha256Hex).value)[0] == ""
  {
    forall i | 0 <= i < RolledWords
      ensures EntryIndex(entries[i]).Ok?
    {
      if i == 0 {
        HighestRollsIndex();
      }
    }
    GeneratePhraseFails(wordlist, entries, sha256Hex);
    GeneratePhraseWords(wordlist, entries, sha256Hex);
    HighestRollsIndex();
    assert WordAtAsWritten(wordlist, 19999) == None;
  }

  /** Lines 94-113 of `generatePhrase`, as written. */
  method GeneratePhrase(wordlist: seq<string>, entries: seq<RollEntry>, sha256Hex: string -> string)
    returns (r: Result<seq<Option<string>>, string>)
    requires IsWordlist(wordlist) && |entries| == RolledWords
    requires forall s :: IsHexDigest(sha256Hex(s))
    ensures r == GeneratePhraseSpec(wordlist, entries, sha256Hex)
  {
    ghost var pick := PickAsWritten(wordlist);
    var words: seq<Option<string>> := [];
    for i := 0 to RolledWords
      invariant RolledWordsSpec(entries[..i], pick) == Ok(words)
    {
      var index := EntryIndex(entries[i]);
      if index.Err? {
        assert pick(entries[i]) == Err(index.error);
        RolledWordsSnocFails(entries, pick, i);
        RolledWordsStop(entries, pick, i + 1);
        return Err(index.error);
      }
      var word := WordAtAsWritten(wordlist, index.value);
      assert pick(entries[i]) == Ok(word);
      RolledWordsSnoc(entries, pick, i, words);
      words := words + [word];
    }
    assert entries[..RolledWords] == entries;
    var phrase := JoinWords(Rendered(words), " ");
    var digest := sha256Hex(phrase);
    ChecksumIndexInRange(digest, wordlist);
    var checksumIndex := ChecksumIndex(digest, |wordlist|).value;
    words := words + [Some(wordlist[checksumIndex])];
    return Ok(words);
  }

  // ---------------------------------------- phrase generation, corrected

  /** The word each set of entries picks, corrected, as a function of the entries. */
  function WordPicker(wordlist: seq<string>): RollEntry -> Result<string, RollError> {
    e => RollToWord(wordlist, e)
  }

  /** The phrase so far, plus the word at the checksum index of its digest. */
  function WithChecksumWord(wordlist: seq<string>, words: seq<string>, sha256Hex: string -> string)
    : (phrase: seq<string>)
    requires IsWordlist(wordlist)
    requires forall s :: IsHexDigest(sha256Hex(s))
    ensures |phrase| == |words| + 1 && phrase[..|words|] == words
    ensures var checksum := ChecksumIndex(sha256Hex(JoinWords(words, " ")), |wordlist|);
            checksum.Some? && 0 <= checksum.value < |wordlist| && phrase[|words|] == wordlist[checksum.value]
  {
    var phrase := words + [ChecksumWord(wordlist, JoinWords(words, " "), sha256Hex)];
    assert phrase[..|words|] == words;
    phrase
  }

  /** `generatePhrase` corrected: an index past the list is refused, so the
      phrase is eleven words of the list and the checksum word. */
  function CorrectedPhraseSpec(wordlist: seq<string>, entries: seq<RollEntry>, sha256Hex: string -> string)
    : (r: Result<seq<string>, RollError>)
    requires IsWordlist(wordlist) && |entries| == RolledWords
    requires forall s :: IsHexDigest(sha256Hex(s))
    ensures r.Ok? ==> |r.value| == RolledWords + 1
  {
    match RolledWordsSpec(entries, WordPicker(wordlist))
    case Err(e) => Err(e)
    case Ok(words) => Ok(WithChecksumWord(wordlist, words, sha256Hex))
  }

  /** Corrected, a phrase fails exactly when one of the eleven sets of rolls
      gives no word, and then with the first such failure. */
  lemma CorrectedPhraseFails(wordlist: seq<string>, entries: seq<RollEntry>, sha256Hex: string -> string)
    requires IsWordlist(wordlist) && |entries| == RolledWords
    requires forall s :: IsHexDigest(sha256Hex(s))
    ensures CorrectedPhraseSpec(wordlist, entries, sha256Hex).Err?
            <==> exists i :: 0 <= i < RolledWords && RollToWord(wordlist, entries[i]).Err?
    ensures CorrectedPhraseSpec(wordlist, entries, sha256Hex).Err? ==>
              exists i :: 0 <= i < RolledWords && RollToWord(wordlist, entries[i]) == Err(CorrectedPhraseSpec(wordlist, entries, sha256Hex).error)
                          && forall j :: 0 <= j < i ==> RollToWord(wordlist, entries[j]).Ok?
  {
    var pick := WordPicker(wordlist);
    assert forall e :: pick(e) == RollToWord(wordlist, e);
    var spec := CorrectedPhraseSpec(wordlist, entries, sha256Hex);
    var words := RolledWordsSpec(entries, pick);
    assert spec.Err? <==> words.Err?;
    if words.Err? {
      assert spec.error == words.error;
      RolledWordsFirstError(entries, pick);
    }
  }

  /** Corrected, a generated phrase is twelve words of the list: the words the
      eleven sets of rolls pick, in order, then the word at the checksum index
      of the digest of those eleven joined by spaces. */
  lemma CorrectedPhraseWords(wordlist: seq<string>, entries: seq<RollEntry>, sha256Hex: string -> string)
    requires IsWordlist(wordlist) && |entries| == RolledWords
    requires forall s :: IsHexDigest(sha256Hex(s))
    requires CorrectedPhraseSpec(wordlist, entries, sha256Hex).Ok?
    ensures var phrase := CorrectedPhraseSpec(wordlist, entries, sha256Hex).value;
            && (forall i :: 0 <= i < |phrase| ==> phrase[i] in wordlist)
            && (forall i :: 0 <= i < RolledWords ==>
                  RollToWord(wordlist, entries[i]).Ok? && phrase[i] == RollToWord(wordlist, entries[i]).value)
            && var checksum := ChecksumIndex(sha256Hex(JoinWords(phrase[..RolledWords], " ")), |wordlist|);
               checksum.Some? && 0 <= checksum.value < |wordlist| && phrase[RolledWords] == wordlist[checksum.value]
  {
    var pick := WordPicker(wordlist);
    var words := RolledWordsSpec(entries, pick).value;
    var phrase := CorrectedPhraseSpec(wordlist, entries, sha256Hex).value;
    assert phrase == WithChecksumWord(wordlist, words, sha256Hex);
    forall i | 0 <= i < RolledWords
      ensures RollToWord(wordlist, entries[i]).Ok? && phrase[i] == RollToWord(wordlist, entries[i]).value
    {
      assert pick(entries[i]) == RollToWord(wordlist, entries[i]);
      assert phrase[i] == phrase[..RolledWords][i] == words[i];
    }
  }

  // ------------------------------------------- findValidChecksumWords

  datatype ChecksumWordsError = WrongWordCount(given: nat) | InvalidWord(position: nat, word: string)

  /** The first word whose lower-cased form is not in the list. */
  function FirstUnknownWord(wordlist: seq<string>, words: seq<string>): (r: Option<nat>)
    ensures r.None? <==> forall i :: 0 <= i < |words| ==> Lower(words[i]) in wordlist
    ensures r.Some? ==> r.value < |words| && Lower(words[r.value]) !in wordlist
                        && forall j :: 0 <= j < r.value ==> Lower(words[j]) in wordlist
  {
    if |words| == 0 then None
    else if Lower(words[0]) !in wordlist then Some(0)
    else
      match FirstUnknownWord(wordlist, words[1..])
      case None => None
      case Some(i) => Some(i + 1)
  }

  /** The candidates, in wordlist order, that complete `words` to a phrase the
      wallet library accepts. */
  function Candidates(wordlist: seq<string>, words: seq<string>, isValidPhrase: string -> bool): (r: seq<string>)
    ensures forall c :: c in r <==> c in wordlist && isValidPhrase(JoinWords(words + [c], " "))
    decreases |wordlist|
  {
    if |wordlist| == 0 then []
    else
      var front := Candidates(wordlist[..|wordlist| - 1], words, isValidPhrase);
      var c := wordlist[|wordlist| - 1];
      assert forall x :: x in wordlist <==> x in wordlist[..|wordlist| - 1] || x == c by {
        assert wordlist == wordlist[..|wordlist| - 1] + [c];
      }
      if isValidPhrase(JoinWords(words + [c], " ")) then front + [c] else front
  }

  /** The positions in the list of the candidates kept. */
  function CandidatePositions(wordlist: seq<string>, words: seq<string>, isValidPhrase: string -> bool): seq<nat>
    decreases |wordlist|
  {
    if |wordlist| == 0 then []
    else
      var front := CandidatePositions(wordlist[..|wordlist| - 1], words, isValidPhrase);
      if isValidPhrase(JoinWords(words + [wordlist[|wordlist| - 1]], " ")) then front + [|wordlist| - 1] else front
  }

  /** The candidates keep the wordlist's order: they sit at strictly increasing
      positions of the list. */
  lemma {:induction false} CandidatesInWordlistOrder(wordlist: seq<string>, words: seq<string>, isValidPhrase: string -> bool)
    ensures var r := Candidates(wordlist, words, isValidPhrase);
            var p := CandidatePositions(wordlist, words, isValidPhrase);
            && |p| == |r|
            && (forall k :: 0 <= k < |p| ==> p[k] < |wordlist| && wordlist[p[k]] == r[k])
            && (forall k, l :: 0 <= k < l < |p| ==> p[k] < p[l])
    decreases |wordlist|
  {
    if |wordlist| > 0 {
      var front := wordlist[..|wordlist| - 1];
      CandidatesInWordlistOrder(front, words, isValidPhrase);
    }
  }

  /** `findValidChecksumWords`, its result or the error it throws. */
  function FindValidChecksumWordsSpec(wordlist: seq<string>, words: seq<string>, isValidPhrase: string -> bool)
    : (r: Result<seq<string>, ChecksumWordsError>)
    ensures r.Ok? <==> |words| == RolledWords && forall i :: 0 <= i < |words| ==> Lower(words[i]) in wordlist
    ensures r.Ok? ==> r.value == Candidates(wordlist, words, isValidPhrase)
    ensures |words| != RolledWords ==> r == Err(WrongWordCount(|words|))
    ensures r.Err? && r.error.InvalidWord? ==>
              r.error.position < |words| && r.error.word == words[r.error.position]
              && Lower(r.error.word) !in wordlist
              && forall j :: 0 <= j < r.error.position ==> Lower(words[j]) in wordlist
  {
    if |words| != RolledWords then Err(WrongWordCount(|words|))
    else match FirstUnknownWord(wordlist, words)
      case Some(i) => Err(InvalidWord(i, words[i]))
      case None => Ok(Candidates(wordlist, words, isValidPhrase))
  }

  /** Lines 187-214: the checks, then the loop over the whole wordlist. */
  method FindValidChecksumWords(wordlist: seq<string>, words: seq<string>, isValidPhrase: string -> bool)
    returns (r: Result<seq<string>, ChecksumWordsError>)
    ensures r == FindValidChecksumWordsSpec(wordlist, words, isValidPhrase)
  {
    if |words| != RolledWords {
      return Err(WrongWordCount(|words|));
    }
    for i := 0 to |words|
      invariant forall j :: 0 <= j < i ==> Lower(words[j]) in wordlist
    {
      if Lower(words[i]) !in wordlist {
        return Err(InvalidWord(i, words[i]));
      }
    }
    var validWords: seq<string> := [];
    for k := 0 to |wordlist|
      invariant validWords == Candidates(wordlist[..k], words, isValidPhrase)
    {
      assert wordlist[..k + 1][..k] == wordlist[..k];
      var candidate := wordlist[k];
      if isValidPhrase(JoinWords(words + [candidate], " ")) {
        validWords := validWords + [candidate];
      }
    }
    assert wordlist[..|wordlist|] == wordlist;
    return Ok(validWords);
  }
}
