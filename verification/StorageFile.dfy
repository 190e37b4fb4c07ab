/** A contract's storage, written to a text file one slot a line and read back
    (x/evm/export_operation.go). */
module StorageFile {
  import opened Options

  type Byte = b: int | 0 <= b < 256

  /** A storage key or value: 32 bytes. */
  type Hash = h: seq<Byte> | |h| == 32 witness seq(32, _ => 0)

  // ---------------------------------------------------------------- hexadecimal

  const DIGITS := "0123456789abcdef"

  function DigitOf(n: int): char
    requires 0 <= n < 16
  {
    DIGITS[n]
  }

  /** The value of a hexadecimal digit, in either case. */
  function ValueOf(c: char): Option<int> {
    if '0' <= c <= '9' then Some(c as int - '0' as int)
    else if 'a' <= c <= 'f' then Some(c as int - 'a' as int + 10)
    else if 'A' <= c <= 'F' then Some(c as int - 'A' as int + 10)
    else None
  }

  lemma DigitHasValue(n: int)
    requires 0 <= n < 16
    ensures ValueOf(DigitOf(n)) == Some(n)
    ensures DigitOf(n) != ':' && DigitOf(n) != '\n' && DigitOf(n) != 'x' && DigitOf(n) != 'X'
  {
  }

  function Encode(bytes: seq<Byte>): string {
    if bytes == [] then "" else [DigitOf(bytes[0] / 16), DigitOf(bytes[0] % 16)] + Encode(bytes[1..])
  }

  /** `Hash.Hex`. */
  function Hex(h: seq<Byte>): string {
    "0x" + Encode(h)
  }

  /** `hex.DecodeString`: whatever decodes before the first bad digit or an odd one at the end. */
  function Decode(s: string): seq<Byte>
    decreases |s|
  {
    if |s| < 2 then []
    else
      match (ValueOf(s[0]), ValueOf(s[1]))
      case (Some(hi), Some(lo)) => [16 * hi + lo] + Decode(s[2..])
      case _ => []
  }

  function Zeros(n: nat): seq<Byte> {
    seq(n, _ => 0)
  }

  /** `BytesToHash`: too long is cropped on the left, too short padded on the left. */
  function BytesToHash(b: seq<Byte>): Hash {
    if |b| >= 32 then b[|b| - 32..] else Zeros(32 - |b|) + b
  }

  function Unprefixed(s: string): string {
    if |s| >= 2 && s[0] == '0' && (s[1] == 'x' || s[1] == 'X') then s[2..] else s
  }

  /** `HexToHash`: an optional prefix, a zero in front of an odd number of digits. */
  function HexToHash(s: string): Hash {
    var digits := Unprefixed(s);
    BytesToHash(Decode(if |digits| % 2 == 1 then "0" + digits else digits))
  }

  lemma {:induction false} EncodeShape(bytes: seq<Byte>)
    ensures |Encode(bytes)| == 2 * |bytes|
    ensures forall i | 0 <= i < |Encode(bytes)| :: Encode(bytes)[i] != ':' && Encode(bytes)[i] != '\n'
    decreases |bytes|
  {
    if bytes != [] {
      EncodeShape(bytes[1..]);
      DigitHasValue(bytes[0] / 16);
      DigitHasValue(bytes[0] % 16);
    }
  }

  lemma DecodeTwo(s: string, hi: int, lo: int)
    requires |s| >= 2 && ValueOf(s[0]) == Some(hi) && ValueOf(s[1]) == Some(lo)
    ensures 0 <= 16 * hi + lo < 256 && Decode(s) == [16 * hi + lo] + Decode(s[2..])
  {
  }

  lemma {:induction false} DecodeEncode(bytes: seq<Byte>)
    ensures Decode(Encode(bytes)) == bytes
    decreases |bytes|
  {
    if bytes != [] {
      var hi, lo := bytes[0] / 16, bytes[0] % 16;
      DigitHasValue(hi);
      DigitHasValue(lo);
      assert Encode(bytes)[2..] == Encode(bytes[1..]);
      DecodeTwo(Encode(bytes), hi, lo);
      DecodeEncode(bytes[1..]);
      assert bytes == [bytes[0]] + bytes[1..];
    }
  }

  lemma HexShape(h: Hash)
    ensures |Hex(h)| == 66 && Unprefixed(Hex(h)) == Encode(h)
    ensures forall i | 0 <= i < |Hex(h)| :: Hex(h)[i] != ':' && Hex(h)[i] != '\n'
  {
    EncodeShape(h);
    var s := Hex(h);
    assert s[2..] == Encode(h);
    forall i | 0 <= i < |s|
      ensures s[i] != ':' && s[i] != '\n'
    {
      if i >= 2 { assert s[i] == Encode(h)[i - 2]; }
    }
  }

  lemma HexRoundTrip(h: Hash)
    ensures HexToHash(Hex(h)) == h
  {
    HexShape(h);
    EncodeShape(h);
    DecodeEncode(h);
  }

  // ---------------------------------------------------------------- lines

  datatype Slot = Slot(key: Hash, value: Hash)

  function Line(slot: Slot): string {
    Hex(slot.key) + ":" + Hex(slot.value) + "\n"
  }

  function Printed(slots: seq<Slot>): string {
    if slots == [] then "" else Line(slots[0]) + Printed(slots[1..])
  }

  /** Where `c` first occurs in `s` from `from` on, or the end. */
  function Find(s: string, c: char, from: nat): (i: nat)
    requires from <= |s|
    ensures from <= i <= |s| && (forall k | from <= k < i :: s[k] != c) && (i < |s| ==> s[i] == c)
    decreases |s| - from
  {
    if from == |s| || s[from] == c then from else Find(s, c, from + 1)
  }

  /** `strings.Split` on a one-character separator. */
  function Split(s: string, c: char): (parts: seq<string>)
    ensures |parts| >= 1
    decreases |s|
  {
    var i := Find(s, c, 0);
    if i == |s| then [s] else [s[..i]] + Split(s[i + 1..], c)
  }

  function Without(s: string, c: char): string {
    if s == "" then "" else (if s[0] == c then "" else [s[0]]) + Without(s[1..], c)
  }

  /** One line of the file as `syncReadStorageFromFile` takes it apart; no second part is a panic. */
  function ParseLine(line: string): Option<Slot> {
    var parts := Split(Without(line, '\n'), ':');
    if |parts| < 2 then None else Some(Slot(HexToHash(parts[0]), HexToHash(parts[1])))
  }

  lemma {:induction false} WithoutNothing(s: string, c: char)
    requires forall i | 0 <= i < |s| :: s[i] != c
    ensures Without(s, c) == s
    decreases |s|
  {
    if s != "" { WithoutNothing(s[1..], c); }
  }

  lemma {:induction false} WithoutLast(s: string, c: char)
    requires forall i | 0 <= i < |s| :: s[i] != c
    ensures Without(s + [c], c) == s
    decreases |s|
  {
    if s == "" {
      assert s + [c] == [c] && [c][1..] == "";
    } else {
      assert (s + [c])[1..] == s[1..] + [c];
      WithoutLast(s[1..], c);
    }
  }

  lemma FindAt(s: string, c: char, i: nat)
    requires i < |s| && s[i] == c && forall k | 0 <= k < i :: s[k] != c
    ensures Find(s, c, 0) == i
  {
  }

  /** What was written for a slot, and nothing else, is read back from its line. */
  lemma LineRoundTrip(slot: Slot)
    ensures ParseLine(Line(slot)) == Some(slot)
    ensures |Line(slot)| == 134 && Line(slot)[133] == '\n' && forall i | 0 <= i < 133 :: Line(slot)[i] != '\n'
  {
    var k, v := Hex(slot.key), Hex(slot.value);
    HexRoundTrip(slot.key);
    HexRoundTrip(slot.value);
    HexShape(slot.key);
    HexShape(slot.value);
    var body := k + ":" + v;
    assert forall i | 0 <= i < |body| :: body[i] == if i < 66 then k[i] else if i == 66 then ':' else v[i - 67];
    WithoutLast(body, '\n');
    assert Line(slot) == body + ['\n'];
    FindAt(body, ':', 66);
    assert body[..66] == k && body[67..] == v;
    assert Find(v, ':', 0) == |v|;
    assert Split(v, ':') == [v];
  }

  // ---------------------------------------------------------------- the file

  /** The file read to its end: the last line, if it has no line feed, is dropped. */
  function Loaded(file: string, store: map<Hash, Hash>): Option<map<Hash, Hash>>
    decreases |file|
  {
    var end := Find(file, '\n', 0);
    if end == |file| then Some(store)
    else
      match ParseLine(file[..end + 1])
      case None => None
      case Some(slot) => Loaded(file[end + 1..], store[slot.key := slot.value])
  }

  function Stored(slots: seq<Slot>, store: map<Hash, Hash>): map<Hash, Hash> {
    if slots == [] then store else Stored(slots[1..], store[slots[0].key := slots[0].value])
  }

  lemma {:induction false} LoadedIsStored(slots: seq<Slot>, store: map<Hash, Hash>)
    ensures Loaded(Printed(slots), store) == Some(Stored(slots, store))
    decreases |slots|
  {
    if slots != [] {
      var line, rest := Line(slots[0]), Printed(slots[1..]);
      var file := Printed(slots);
      assert file == line + rest;
      LineRoundTrip(slots[0]);
      FindAt(file, '\n', 133);
      assert file[..134] == line && file[134..] == rest;
      LoadedIsStored(slots[1..], store[slots[0].key := slots[0].value]);
    }
  }

  predicate KeyIn(slots: seq<Slot>, key: Hash) {
    exists i :: 0 <= i < |slots| && slots[i].key == key
  }

  predicate DistinctKeys(slots: seq<Slot>) {
    forall i, j | 0 <= i < j < |slots| :: slots[i].key != slots[j].key
  }

  /** `slots` lists the map, in some order, each key once. */
  ghost predicate Lists(slots: seq<Slot>, store: map<Hash, Hash>) {
    && DistinctKeys(slots)
    && (forall i | 0 <= i < |slots| :: slots[i].key in store && store[slots[i].key] == slots[i].value)
    && (forall key | key in store :: KeyIn(slots, key))
  }

  lemma KeyInTail(slots: seq<Slot>, key: Hash)
    requires slots != []
    ensures KeyIn(slots, key) <==> slots[0].key == key || KeyIn(slots[1..], key)
  {
    var rest := slots[1..];
    if KeyIn(rest, key) {
      var j :| 0 <= j < |rest| && rest[j].key == key;
      assert slots[j + 1].key == key;
    }
    if KeyIn(slots, key) && slots[0].key != key {
      var i :| 0 <= i < |slots| && slots[i].key == key;
      assert rest[i - 1].key == key;
    }
  }

  /** Storing slots one after the other: keys not among them keep what they had. */
  lemma {:induction false} StoredKeys(slots: seq<Slot>, store: map<Hash, Hash>, key: Hash)
    ensures var r := Stored(slots, store);
            && (key in r <==> key in store || KeyIn(slots, key))
            && (key in store && !KeyIn(slots, key) ==> r[key] == store[key])
    decreases |slots|
  {
    if slots != [] {
      KeyInTail(slots, key);
      StoredKeys(slots[1..], store[slots[0].key := slots[0].value], key);
    }
  }

  lemma {:induction false} StoredValue(slots: seq<Slot>, store: map<Hash, Hash>, i: nat)
    requires DistinctKeys(slots) && i < |slots|
    ensures slots[i].key in Stored(slots, store) && Stored(slots, store)[slots[i].key] == slots[i].value
    decreases |slots|
  {
    var store1 := store[slots[0].key := slots[0].value];
    if i == 0 {
      StoredKeys(slots[1..], store1, slots[0].key);
    } else {
      StoredValue(slots[1..], store1, i - 1);
    }
  }

  /** For every contract storage, in whatever order it is walked, reading the written file back into
      an empty store gives exactly that storage. */
  lemma FileRoundTrip(storage: map<Hash, Hash>, slots: seq<Slot>)
    requires Lists(slots, storage)
    ensures Loaded(Printed(slots), map[]) == Some(storage)
  {
    LoadedIsStored(slots, map[]);
    var r := Stored(slots, map[]);
    forall key
      ensures key in r <==> key in storage
      ensures key in storage ==> r[key] == storage[key]
    {
      StoredKeys(slots, map[], key);
      if KeyIn(slots, key) {
        var i :| 0 <= i < |slots| && slots[i].key == key;
        StoredValue(slots, map[], i);
      }
    }
    assert r == storage;
  }

  // ---------------------------------------------------------------- the code

  /** `syncWriteAccountStorage`: one line for each slot, through the buffered writer; an empty storage
      leaves no file. */
  method WriteStorage(slots: seq<Slot>) returns (file: Option<string>)
    ensures file == if slots == [] then None else Some(Printed(slots))
  {
    var buffer := "";
    assert slots[0..] == slots;
    var index := 0;
    while index < |slots|
      invariant index <= |slots|
      invariant Printed(slots) == buffer + Printed(slots[index..])
    {
      PrintedFrom(slots, index);
      assert buffer + (Line(slots[index]) + Printed(slots[index + 1..])) == (buffer + Line(slots[index])) + Printed(slots[index + 1..]);
      buffer := buffer + Line(slots[index]);
      index := index + 1;
    }
    assert slots[|slots|..] == [] && buffer + "" == buffer;
    if index == 0 {
      return None;
    }
    return Some(buffer);
  }

  lemma PrintedFrom(slots: seq<Slot>, i: nat)
    requires i < |slots|
    ensures Printed(slots[i..]) == Line(slots[i]) + Printed(slots[i + 1..])
  {
    assert slots[i..][1..] == slots[i + 1..];
  }

  /** `syncReadStorageFromFile`: line by line until the end of the file. */
  method ReadStorage(file: Option<string>, store: map<Hash, Hash>) returns (r: Option<map<Hash, Hash>>)
    ensures r == if file.None? then Some(store) else Loaded(file.value, store)
  {
    if file.None? {
      return Some(store);
    }
    var rest := file.value;
    var now: map<Hash, Hash> := store;
    while true
      invariant Loaded(file.value, store) == Loaded(rest, now)
      decreases |rest|
    {
      var end := Find(rest, '\n', 0);
      if end == |rest| {
        return Some(now);
      }
      var parts := Split(Without(rest[..end + 1], '\n'), ':');
      if |parts| < 2 {
        return None;
      }
      now := now[HexToHash(parts[0]) := HexToHash(parts[1])];
      rest := rest[end + 1..];
    }
  }

  /** Writing a storage and reading it back, as the two commands do it. */
  method ExportAndImport(storage: map<Hash, Hash>, slots: seq<Slot>) returns (r: Option<map<Hash, Hash>>)
    requires Lists(slots, storage)
    ensures r == Some(storage)
  {
    var file := WriteStorage(slots);
    FileRoundTrip(storage, slots);
    r := ReadStorage(file, map[]);
  }
}
