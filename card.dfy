/** The user name a card carries: the first bytes of block 1 of a MIFARE
    Classic card, as the card-present branch of `on_rfid_card_state_changed`
    (main/main.c) extracts and sanitises them. */
module Card {
  import opened Config
  import opened JsonScan

  newtype byte = x: int | 0 <= x < 256

  /** `RC522_MIFARE_BLOCK_SIZE`: one block read from the card. */
  const BLOCK_SIZE: nat := 16
  /** At most this many bytes of the block form the user name. */
  const CARD_NAME_MAX: nat := 10
  /** `char gCardUsername[32]`, the buffer the name is copied into. */
  const CARD_BUFFER_SIZE: nat := 32

  function ByteChar(b: byte): char
  {
    (b as int) as char
  }

  /** Bytes read as characters, one character per byte. */
  function Chars(bs: seq<byte>): (s: string)
    ensures |s| == |bs|
    ensures forall k :: 0 <= k < |bs| ==> s[k] == ByteChar(bs[k])
  {
    seq(|bs|, k requires 0 <= k < |bs| => ByteChar(bs[k]))
  }

  /** The name stored on the card: the bytes before the first NUL among the
      first ten. */
  function RawName(block: seq<byte>): string
    requires |block| >= CARD_NAME_MAX
  {
    CString(Chars(block[..CARD_NAME_MAX]))
  }

  /** The user name a card yields: the raw name, or `"UNKNOWN"` when that is
      empty or is the no-user sentinel `"null"`. */
  function CardUsername(block: seq<byte>): (name: string)
    requires |block| == BLOCK_SIZE
    ensures UsernameFits(name) && 1 <= |name| <= CARD_NAME_MAX
    ensures name != NULL_USER
  {
    var raw := RawName(block);
    if raw == [] || raw == NULL_USER then UNKNOWN_USER else raw
  }

  /** A C string ends at the first NUL. */
  lemma {:induction false} CStringAt(s: string, k: nat)
    requires k <= |s|
    requires forall j :: 0 <= j < k ==> s[j] != '\0'
    requires k == |s| || s[k] == '\0'
    ensures CString(s) == s[..k]
  {
    if k > 0 {
      CStringAt(s[1..], k - 1);
      assert s[..k] == [s[0]] + s[1..][..k - 1];
    }
  }

  /** The copy loop: `copy_length` counts the leading non-NUL bytes among the
      first ten, a zero count is replaced by ten, that many bytes are copied
      into the zeroed 32-byte buffer, and the C string in the buffer is
      checked against the empty name and `"null"`. */
  method ExtractCardUsername(block: seq<byte>) returns (name: string)
    requires |block| == BLOCK_SIZE
    ensures name == CardUsername(block)
  {
    var copyLength := 0;
    var i := 0;
    while i < CARD_NAME_MAX
      invariant 0 <= i <= CARD_NAME_MAX
      invariant copyLength == i
      invariant forall j :: 0 <= j < i ==> block[j] != 0
    {
      if block[i] == 0 {
        break;
      }
      copyLength := i + 1;
      i := i + 1;
    }
    // Only a NUL in the first byte leaves the count at zero.
    if copyLength == 0 {
      copyLength := CARD_NAME_MAX;
    }
    var buffer := block[..copyLength] + seq(CARD_BUFFER_SIZE - copyLength, _ => 0 as byte);
    var cardName := CString(Chars(buffer));
    // The C string in the buffer is the raw name, with or without the fallback.
    var k := if block[0] == 0 then 0 else i;
    CStringAt(Chars(buffer), k);
    CStringAt(Chars(block[..CARD_NAME_MAX]), k);
    assert Chars(buffer)[..k] == Chars(block[..CARD_NAME_MAX])[..k];
    if |cardName| == 0 {
      name := UNKNOWN_USER;
    } else if cardName == NULL_USER {
      name := UNKNOWN_USER;
    } else {
      name := cardName;
    }
  }

  /** Round trip: a name of one to ten non-NUL bytes other than `"null"`,
      written at the start of the block and NUL-terminated when shorter than
      ten bytes, is read back unchanged. */
  lemma CardNameRoundTrip(text: seq<byte>, rest: seq<byte>)
    requires 1 <= |text| <= CARD_NAME_MAX && |text| + |rest| == BLOCK_SIZE
    requires forall j :: 0 <= j < |text| ==> text[j] != 0
    requires |text| < CARD_NAME_MAX ==> rest[0] == 0
    requires Chars(text) != NULL_USER
    ensures CardUsername(text + rest) == Chars(text)
  {
    var block := text + rest;
    CStringAt(Chars(block[..CARD_NAME_MAX]), |text|);
    assert Chars(block[..CARD_NAME_MAX])[..|text|] == Chars(text);
  }

  /** A card whose first byte is NUL, or which stores `"null"`, yields
      `"UNKNOWN"`. */
  lemma UnreadableCardIsUnknown(block: seq<byte>)
    requires |block| == BLOCK_SIZE
    requires block[0] == 0 || RawName(block) == NULL_USER
    ensures CardUsername(block) == UNKNOWN_USER
  {
    if block[0] == 0 {
      CStringAt(Chars(block[..CARD_NAME_MAX]), 0);
    }
  }
}
