/** The normalized package archive: records in name order with fixed metadata,
    extended headers for long or non-ASCII names, and what extraction recovers.
    Layout after the ustar and pax formats of IEEE Std 1003.1. */
module Archive {
  import opened Registry
  import opened Ordering

  type Byte = x: int | 0 <= x < 256
  type Data = seq<Byte>
  type Files = map<string, Data>

  const BLOCK := 512
  const RECORD := 10240
  const MAX_NAME := 100
  const MAX_SIZE := 0x2_0000_0000 // what eleven octal digits hold

  const NUL: Byte := 0
  const SPACE: Byte := 32
  const NEWLINE: Byte := 10
  const ZERO: Byte := 48
  const REGULAR: Byte := 48 // typeflag '0'
  const EXTENDED: Byte := 120 // typeflag 'x'

  predicate IsAscii(b: Data) {
    forall i :: 0 <= i < |b| ==> b[i] < 128
  }

  function Text(b: Data): string {
    seq(|b|, i requires 0 <= i < |b| => b[i] as char)
  }

  /** UTF-8, of which it matters here that decoding undoes encoding and leaves ASCII as it is. */
  datatype Utf8 = Utf8(encode: string -> Data, decode: Data -> string) {
    ghost predicate Lawful() {
      (forall s :: decode(encode(s)) == s) && forall b :: IsAscii(b) ==> decode(b) == Text(b)
    }
  }

  // Numbers as digits.

  function Power(base: nat, n: nat): nat {
    if n == 0 then 1 else base * Power(base, n - 1)
  }

  /** `width` octal digits of `n`, leading zeros kept. */
  function Octal(n: nat, width: nat): (digits: Data)
    ensures |digits| == width
  {
    if width == 0 then [] else Octal(n / 8, width - 1) + [ZERO + n % 8]
  }

  function Digits(n: nat): (digits: Data)
    ensures |digits| >= 1 && digits[|digits| - 1] == ZERO + n % 10
  {
    if n < 10 then [ZERO + n] else Digits(n / 10) + [ZERO + n % 10]
  }

  predicate AllDigits(digits: Data, base: nat) {
    forall i :: 0 <= i < |digits| ==> 0 <= digits[i] - ZERO < base
  }

  function Number(digits: Data, base: nat): nat
    requires AllDigits(digits, base)
  {
    if digits == [] then 0 else Number(digits[..|digits| - 1], base) * base + (digits[|digits| - 1] - ZERO)
  }

  lemma {:induction false} OctalReads(n: nat, width: nat)
    requires n < Power(8, width)
    ensures AllDigits(Octal(n, width), 8) && Number(Octal(n, width), 8) == n
  {
    if width > 0 {
      OctalReads(n / 8, width - 1);
      assert Octal(n, width)[..width - 1] == Octal(n / 8, width - 1);
    }
  }

  lemma {:induction false} DigitsRead(n: nat)
    ensures AllDigits(Digits(n), 10) && Number(Digits(n), 10) == n
  {
    if n < 10 {
      assert Digits(n)[..0] == [];
    } else {
      DigitsRead(n / 10);
      assert Digits(n)[..|Digits(n)| - 1] == Digits(n / 10);
    }
  }

  lemma {:induction false} DigitsGrow(n: nat, m: nat)
    requires n <= m
    ensures |Digits(n)| <= |Digits(m)| <= m / 2 + 1
    decreases m
  {
    if m >= 10 {
      DigitsGrow(n / 10, m / 10);
    }
  }

  // Headers.

  function Zeros(n: nat): Data {
    seq(n, _ => NUL)
  }

  function Field(b: Data, width: nat): (field: Data)
    ensures |field| == width
  {
    if |b| > width then b[..width] else b + Zeros(width - |b|)
  }

  function UntilNul(b: Data): Data {
    if b == [] || b[0] == NUL then [] else [b[0]] + UntilNul(b[1..])
  }

  function Sum(b: Data): nat {
    if b == [] then 0 else b[0] + Sum(b[1..])
  }

  lemma {:induction false} SumBound(b: Data)
    ensures Sum(b) <= 255 * |b|
  {
    if b != [] {
      SumBound(b[1..]);
    }
  }

  function Number8(n: nat): (field: Data)
    ensures |field| == 8
  {
    Octal(n, 7) + [NUL]
  }

  function Number12(n: nat): (field: Data)
    ensures |field| == 12
  {
    Octal(n, 11) + [NUL]
  }

  /** Name, mode, user, group, size and time: what stands before the checksum. */
  function Front(name: Data, mode: nat, size: nat): (front: Data)
    ensures |front| == 148
  {
    Field(name, MAX_NAME) + (Number8(mode) + Number8(0) + Number8(0)) + Number12(size) + Number12(0)
  }

  const USTAR: Data := [117, 115, 116, 97, 114, 0, 48, 48]

  /** Type, link name, magic, version and the empty owner, device and prefix fields. */
  function Back(kind: Byte): (back: Data)
    ensures |back| == 356
  {
    [kind] + Zeros(100) + USTAR + Zeros(247)
  }

  function Checksum(front: Data, back: Data): nat {
    Sum(front) + 8 * SPACE + Sum(back)
  }

  function Header(name: Data, mode: nat, size: nat, kind: Byte): (header: Data)
    ensures |header| == BLOCK
  {
    var front, back := Front(name, mode, size), Back(kind);
    front + (Octal(Checksum(front, back), 6) + [NUL, SPACE]) + back
  }

  /** `prefix` is the ustar field for the leading folders of a long name. */
  datatype Heading = Heading(name: Data, prefix: Data, size: nat, kind: Byte)
  {
    function FullName(): Data {
      if prefix == [] then name else prefix + ['/' as int] + name
    }
  }

  function ReadHeader(h: Data): Option<Heading>
    requires |h| == BLOCK
  {
    if AllDigits(h[124..135], 8) && AllDigits(h[148..154], 8) && Number(h[148..154], 8) == Checksum(h[..148], h[156..])
    then Some(Heading(UntilNul(h[..MAX_NAME]), UntilNul(h[345..500]), Number(h[124..135], 8), h[156]))
    else None
  }

  lemma PowersOfEight()
    ensures Power(8, 6) == 0x4_0000 && Power(8, 11) == MAX_SIZE
  {
    assert Power(8, 3) == 512;
    assert Power(8, 6) == 8 * Power(8, 5) == 64 * Power(8, 4) == 512 * Power(8, 3);
    assert Power(8, 9) == 8 * Power(8, 8) == 64 * Power(8, 7) == 512 * Power(8, 6);
    assert Power(8, 11) == 8 * Power(8, 10) == 64 * Power(8, 9);
  }

  lemma FrontFields(name: Data, mode: nat, size: nat)
    ensures Front(name, mode, size)[..MAX_NAME] == Field(name, MAX_NAME)
    ensures Front(name, mode, size)[124..135] == Octal(size, 11)
  {
    var a, b, c, d := Field(name, MAX_NAME), Number8(mode) + Number8(0) + Number8(0), Number12(size), Number12(0);
    assert Front(name, mode, size) == a + b + c + d;
    assert (a + b + c + d)[124..136] == c;
    assert c[..11] == Octal(size, 11);
    assert (a + b + c + d)[124..135] == (a + b + c + d)[124..136][..11];
  }

  lemma HeaderReads(name: Data, mode: nat, size: nat, kind: Byte)
    requires size < MAX_SIZE
    ensures ReadHeader(Header(name, mode, size, kind)) == Some(Heading(UntilNul(Field(name, MAX_NAME)), [], size, kind))
    ensures kind != NUL ==> Header(name, mode, size, kind) != Zeros(BLOCK)
  {
    var front, back := Front(name, mode, size), Back(kind);
    var check := Octal(Checksum(front, back), 6);
    var h := Header(name, mode, size, kind);
    PowersOfEight();
    SumBound(front);
    SumBound(back);
    OctalReads(Checksum(front, back), 6);
    OctalReads(size, 11);
    FrontFields(name, mode, size);
    hide Front, Back, Octal, Sum, Power;
    assert h[..148] == front;
    assert h[156..] == back;
    assert h[148..156][..6] == h[148..154] == check by {
      assert h[148..156] == check + [NUL, SPACE];
    }
    assert h[124..135] == front[124..135];
    assert h[..MAX_NAME] == front[..MAX_NAME];
    assert h[156] == back[0] == kind by { BackKind(kind); }
    assert h[345..500] == back[189..344] == Zeros(155) by { BackKind(kind); }
    assert Zeros(155)[0] == NUL;
  }

  lemma BackKind(kind: Byte)
    ensures Back(kind)[0] == kind && Back(kind)[189..344] == Zeros(155)
  {
  }

  // The written block, field by field.

  lemma {:induction false} SumOfJoined(a: Data, b: Data)
    ensures Sum(a + b) == Sum(a) + Sum(b)
    decreases |a|
  {
    if a == [] {
      assert a + b == b;
    } else {
      assert (a + b)[1..] == a[1..] + b;
      SumOfJoined(a[1..], b);
    }
  }

  /** A sum of bytes: nothing for none, a byte for itself, and parts add up. */
  lemma SumIsSum(a: Data, b: Data, x: Byte)
    ensures Sum([]) == 0 && Sum([x]) == x && Sum(a + b) == Sum(a) + Sum(b)
  {
    assert [x][1..] == [];
    SumOfJoined(a, b);
  }

  function Spaces(n: nat): Data {
    seq(n, _ => SPACE)
  }

  lemma SumOfSpaces()
    ensures Sum(Spaces(8)) == 256
  {
    assert Spaces(8) == [32, 32, 32, 32] + [32, 32, 32, 32];
    SumOfJoined([32, 32, 32, 32], [32, 32, 32, 32]);
    SumOfJoined([32, 32], [32, 32]);
    SumOfJoined([32], [32]);
    assert [32][1..] == [];
    assert [32, 32, 32, 32] == [32, 32] + [32, 32] && [32, 32] == [32] + [32];
  }

  /** Six octal digits hold the byte sum of the whole block with the checksum field
      taken as eight spaces; a NUL and a space end the field. */
  lemma ChecksumIsBlockSum(name: Data, mode: nat, size: nat, kind: Byte)
    ensures var h := Header(name, mode, size, kind);
            && AllDigits(h[148..154], 8) && h[154] == 0 && h[155] == 32
            && Number(h[148..154], 8) == Sum(h[..148] + Spaces(8) + h[156..])
  {
    var front, back := Front(name, mode, size), Back(kind);
    var h := Header(name, mode, size, kind);
    PowersOfEight();
    SumBound(front);
    SumBound(back);
    OctalReads(Checksum(front, back), 6);
    SumOfJoined(front + Spaces(8), back);
    SumOfJoined(front, Spaces(8));
    SumOfSpaces();
    hide Front, Back, Octal, Sum, Power;
    assert h[..148] == front && h[156..] == back;
    assert h[148..156] == Octal(Checksum(front, back), 6) + [NUL, SPACE];
    assert h[148..154] == h[148..156][..6] && h[154] == h[148..156][6] && h[155] == h[148..156][7];
  }

  lemma FrontLayout(name: Data, mode: nat, size: nat)
    ensures var f := Front(name, mode, size);
            && f[..100] == Field(name, 100) && f[100..108] == Number8(mode) && f[108..116] == Number8(0) && f[116..124] == Number8(0)
            && f[124..136] == Number12(size) && f[136..148] == Number12(0)
  {
    var a, b, c, d := Field(name, MAX_NAME), Number8(mode) + Number8(0) + Number8(0), Number12(size), Number12(0);
    hide Field, Number8, Number12;
    var f := Front(name, mode, size);
    assert f == a + b + c + d;
    assert f[100..124] == b;
    assert f[100..108] == b[..8] && f[108..116] == b[8..16] && f[116..124] == b[16..24];
  }

  /** Where everything stands in a written header: name, mode, owner, group, size,
      time, type, magic with version, and nothing else. */
  lemma HeaderLayout(name: Data, mode: nat, size: nat, kind: Byte)
    requires |name| <= 100
    ensures var h := Header(name, mode, size, kind);
            && h[..|name|] == name && h[|name|..100] == Zeros(100 - |name|)
            && h[100..108] == Octal(mode, 7) + [0]
            && h[108..116] == Octal(0, 7) + [0] && h[116..124] == Octal(0, 7) + [0]
            && h[124..136] == Octal(size, 11) + [0] && h[136..148] == Octal(0, 11) + [0]
            && h[156] == kind && h[157..257] == Zeros(100)
            && h[257..265] == [117, 115, 116, 97, 114, 0, 48, 48] && h[265..] == Zeros(247)
  {
    var front, back := Front(name, mode, size), Back(kind);
    var h := Header(name, mode, size, kind);
    FrontLayout(name, mode, size);
    assert back[0] == kind && back[1..101] == Zeros(100) && back[101..109] == USTAR && back[109..] == Zeros(247);
    hide Front, Back, Octal, Sum, Checksum;
    assert h[..148] == front && h[156..] == back;
    assert h[..100] == front[..100] == name + Zeros(100 - |name|);
    assert h[100..108] == front[100..108] && h[108..116] == front[108..116] && h[116..124] == front[116..124];
    assert h[124..136] == front[124..136] && h[136..148] == front[136..148];
    assert h[156] == back[0] && h[157..257] == back[1..101] && h[257..265] == back[101..109] && h[265..] == back[109..];
  }

  lemma OneMoreDigit(n: nat, width: nat)
    ensures Octal(n, 0) == []
    ensures Octal(n, width + 1) == Octal(n / 8, width) + [48 + n % 8]
  {
  }

  /** The digits themselves, at one number: permissions 644. */
  lemma OctalDigitsOfMode()
    ensures Octal(420, 7) == [48, 48, 48, 48, 54, 52, 52]
  {
    OneMoreDigit(0, 0);
    OneMoreDigit(0, 1);
    OneMoreDigit(0, 2);
    OneMoreDigit(0, 3);
    OneMoreDigit(6, 4);
    OneMoreDigit(52, 5);
    OneMoreDigit(420, 6);
    hide Octal;
  }

  // Extended headers.

  function Ascii(s: string): (b: Data)
    ensures |b| == |s|
  {
    seq(|s|, i requires 0 <= i < |s| => if s[i] as int < 128 then s[i] as int else '?' as int)
  }

  const PATH_KEY: Data := [32, 112, 97, 116, 104, 61] // " path="

  /** The record's own length, counting the digits that state it: `rest` bytes
      follow those digits. Found by repeating until it no longer changes. */
  function SelfLength(rest: nat, guess: nat): (n: nat)
    requires guess <= rest + |Digits(guess)|
    ensures n == rest + |Digits(n)|
    decreases 2 * rest + 4 - guess
  {
    DigitsGrow(guess, guess);
    var next := rest + |Digits(guess)|;
    if next == guess then guess
    else
      DigitsGrow(guess, next);
      SelfLength(rest, next)
  }

  function PathRecord(path: Data): Data {
    Digits(SelfLength(|path| + 7, 0)) + PATH_KEY + path + [NEWLINE]
  }

  function LeadingDigits(b: Data): (n: nat)
    ensures n <= |b| && AllDigits(b[..n], 10)
  {
    if b != [] && ZERO <= b[0] < ZERO + 10 then 1 + LeadingDigits(b[1..]) else 0
  }

  function ReadPathRecord(b: Data): Option<Data> {
    var k := LeadingDigits(b);
    var n := Number(b[..k], 10);
    if k + 7 <= n <= |b| && b[k..k + 6] == PATH_KEY && b[n - 1] == NEWLINE then Some(b[k + 6..n - 1]) else None
  }

  lemma {:induction false} LeadingDigitsStop(digits: Data, rest: Data)
    requires AllDigits(digits, 10) && rest != [] && rest[0] == SPACE
    ensures LeadingDigits(digits + rest) == |digits|
    decreases |digits|
  {
    if digits == [] {
      assert digits + rest == rest;
    } else {
      assert (digits + rest)[1..] == digits[1..] + rest;
      LeadingDigitsStop(digits[1..], rest);
    }
  }

  lemma PathKeyText()
    ensures PATH_KEY == Ascii(" path=") && [NEWLINE] == Ascii("\n")
  {
  }

  /** The record is its own length, the keyword and the path on one line, and reads back. */
  lemma PathRecordReads(path: Data)
    ensures ReadPathRecord(PathRecord(path)) == Some(path)
    ensures PathRecord(path) == Digits(|PathRecord(path)|) + Ascii(" path=") + path + Ascii("\n")
  {
    PathKeyText();
    hide Digits, SelfLength, LeadingDigits, Number;
    var n := SelfLength(|path| + 7, 0);
    var digits := Digits(n);
    var b := PathRecord(path);
    DigitsRead(n);
    assert b == digits + (PATH_KEY + path + [NEWLINE]);
    LeadingDigitsStop(digits, PATH_KEY + path + [NEWLINE]);
    assert b[..|digits|] == digits;
    assert b[|digits|..|digits| + 6] == PATH_KEY;
    assert |b| == n;
    assert b[|digits| + 6..n - 1] == path;
  }

  // Archives.

  /** Names the plain header holds as they are. */
  predicate Plain(name: string) {
    |name| <= MAX_NAME && forall i :: 0 <= i < |name| ==> name[i] as int < 128
  }

  function Padding(size: nat): nat {
    (BLOCK - size % BLOCK) % BLOCK
  }

  function Padded(data: Data): Data {
    data + Zeros(Padding(|data|))
  }

  /** Everything written for one file. */
  function Record(utf8: Utf8, name: string, data: Data): Data {
    var record := PathRecord(utf8.encode(name));
    (if Plain(name) then [] else Header(Ascii("././@PaxHeader"), 0, |record|, EXTENDED) + Padded(record))
    + (Header(Ascii(name), 420, |data|, REGULAR) + Padded(data))
  }

  function Records(utf8: Utf8, names: seq<string>, files: Files): Data
    requires forall i :: 0 <= i < |names| ==> names[i] in files
  {
    if names == [] then [] else Record(utf8, names[0], files[names[0]]) + Records(utf8, names[1..], files)
  }

  /** Two empty blocks, then zeros up to a whole number of tape records. */
  function Ending(size: nat): Data {
    Zeros(2 * BLOCK + (RECORD - (size + 2 * BLOCK) % RECORD) % RECORD)
  }

  function StripSlashes(s: string): string {
    if s != "" && s[|s| - 1] == '/' then StripSlashes(s[..|s| - 1]) else s
  }

  /** Links, devices, folders and pipes: no contents follow their header. */
  predicate IsBare(h: Heading) {
    '1' as int <= h.kind <= '6' as int || (h.kind == NUL && h.name != [] && h.name[|h.name| - 1] == '/' as int)
  }

  predicate IsRegular(h: Heading) {
    h.kind == REGULAR || h.kind == '7' as int || (h.kind == NUL && !IsBare(h))
  }

  /** Global and vendor headers, which change how others are read. */
  predicate IsForeign(h: Heading) {
    h.kind in {'g' as int, 'L' as int, 'K' as int, 'S' as int, 'X' as int}
  }

  /** The regular files of an archive in order, other members skipped; `path` is a
      pending extended name. `None` stands for what is malformed, foreign, or an
      extended header that says anything but a path. */
  function Members(utf8: Utf8, b: Data, path: Option<string>): Option<seq<(string, Data)>>
    decreases |b|
  {
    if b == [] then Some([])
    else if |b| < BLOCK then None
    else if b[..BLOCK] == Zeros(BLOCK) then Some([])
    else
      var heading := ReadHeader(b[..BLOCK]);
      if heading.None? || IsForeign(heading.value) then None
      else if IsBare(heading.value) then Members(utf8, b[BLOCK..], None)
      else if |b| < BLOCK + heading.value.size + Padding(heading.value.size) then None
      else
        var h := heading.value;
        var data := b[BLOCK..BLOCK + h.size];
        var rest := b[BLOCK + h.size + Padding(h.size)..];
        if h.kind == EXTENDED then
          var record := ReadPathRecord(data);
          if record.None? then None else Members(utf8, rest, Some(StripSlashes(utf8.decode(record.value))))
        else if IsRegular(h) then
          var tail := Members(utf8, rest, None);
          var name := if path.Some? then path.value else utf8.decode(h.FullName());
          if tail.None? then None else Some([(name, data)] + tail.value)
        else Members(utf8, rest, None)
  }

  /** Later members overwrite earlier ones of the same name. */
  function Collected(members: seq<(string, Data)>): Files {
    if members == [] then map[] else Collected(members[..|members| - 1])[members[|members| - 1].0 := members[|members| - 1].1]
  }

  /** The name extraction reports for a stored name. */
  function Recovered(name: string): string {
    if Plain(name) then Text(UntilNul(Ascii(name))) else StripSlashes(name)
  }

  function RecoveredAll(names: seq<string>, files: Files): seq<(string, Data)>
    requires forall i :: 0 <= i < |names| ==> names[i] in files
  {
    seq(|names|, i requires 0 <= i < |names| => (Recovered(names[i]), files[names[i]]))
  }

  /** Sizes a header field can state. */
  ghost predicate Fits(utf8: Utf8, name: string, data: Data) {
    |data| < MAX_SIZE && |PathRecord(utf8.encode(name))| < MAX_SIZE
  }

  /** One block plus padded contents, read off the front of an archive. */
  lemma BlockReads(utf8: Utf8, name: Data, mode: nat, data: Data, kind: Byte, rest: Data, path: Option<string>)
    requires |data| < MAX_SIZE && (kind == EXTENDED || kind == REGULAR)
    ensures var b := Header(name, mode, |data|, kind) + Padded(data) + rest;
            Members(utf8, b, path) ==
              if kind == EXTENDED then
                var record := ReadPathRecord(data);
                if record.None? then None else Members(utf8, rest, Some(StripSlashes(utf8.decode(record.value))))
              else
                var tail := Members(utf8, rest, None);
                if tail.None? then None
                else Some([(if path.Some? then path.value else utf8.decode(UntilNul(Field(name, MAX_NAME))), data)] + tail.value)
  {
    hide Header, ReadHeader, ReadPathRecord, StripSlashes, Zeros;
    var b := Header(name, mode, |data|, kind) + Padded(data) + rest;
    HeaderReads(name, mode, |data|, kind);
    PaddedLength(data);
    assert b[..BLOCK] == Header(name, mode, |data|, kind);
    assert b[BLOCK..BLOCK + |data|] == data;
    assert b[BLOCK + |data| + Padding(|data|)..] == rest;
  }

  /** Folders, links and the like are skipped, and so is an extended name given to one. */
  lemma BareMembersAreSkipped(utf8: Utf8, name: Data, mode: nat, size: nat, kind: Byte, rest: Data, path: Option<string>)
    requires size < MAX_SIZE && '1' as int <= kind <= '6' as int
    ensures Members(utf8, Header(name, mode, size, kind) + rest, path) == Members(utf8, rest, None)
  {
    hide Header, ReadHeader, ReadPathRecord, StripSlashes, Zeros;
    var b := Header(name, mode, size, kind) + rest;
    HeaderReads(name, mode, size, kind);
    assert b[..BLOCK] == Header(name, mode, size, kind);
    assert b[BLOCK..] == rest;
  }

  lemma PaddedLength(data: Data)
    ensures |Padded(data)| == |data| + Padding(|data|) && Padded(data)[..|data|] == data
  {
  }

  lemma {:induction false} UntilNulOfField(name: Data, width: nat)
    requires |name| <= width
    ensures UntilNul(Field(name, width)) == UntilNul(name)
    decreases |name|
  {
    if name != [] {
      assert Field(name, width)[1..] == Field(name[1..], width - 1);
      UntilNulOfField(name[1..], width - 1);
    } else if width > 0 {
      assert Field(name, width)[0] == NUL;
    }
  }

  /** What every archived file of a plain name starts with: a header of fixed metadata,
      permissions 644 and type `0`, for its name and size. */
  lemma PlainRecordStarts(utf8: Utf8, name: string, data: Data)
    requires Plain(name)
    ensures var h := Record(utf8, name, data)[..512];
            h == Header(Ascii(name), 420, |data|, 48) && Record(utf8, name, data)[512..512 + |data|] == data
  {
    hide Header, PathRecord;
    PaddedLength(data);
    var h := Header(Ascii(name), 420, |data|, REGULAR);
    assert Record(utf8, name, data) == h + Padded(data);
  }

  lemma PlainIsAscii(name: string)
    requires Plain(name)
    ensures IsAscii(UntilNul(Ascii(name)))
  {
    UntilNulIsIdentity(Ascii(name));
  }

  lemma RecordReads(utf8: Utf8, name: string, data: Data, rest: Data)
    requires utf8.Lawful() && Fits(utf8, name, data)
    ensures var tail := Members(utf8, rest, None);
            Members(utf8, Record(utf8, name, data) + rest, None) ==
              if tail.None? then None else Some([(Recovered(name), data)] + tail.value)
  {
    hide Header, Padded, PathRecord, Members, ReadPathRecord, StripSlashes, UntilNul, Field;
    var own := Header(Ascii(name), 420, |data|, REGULAR) + Padded(data);
    if Plain(name) {
      UntilNulOfField(Ascii(name), MAX_NAME);
      PlainIsAscii(name);
      BlockReads(utf8, Ascii(name), 420, data, REGULAR, rest, None);
      assert Record(utf8, name, data) + rest == own + rest;
    } else {
      var record := PathRecord(utf8.encode(name));
      var extension := Header(Ascii("././@PaxHeader"), 0, |record|, EXTENDED) + Padded(record);
      PathRecordReads(utf8.encode(name));
      BlockReads(utf8, Ascii(name), 420, data, REGULAR, rest, Some(StripSlashes(name)));
      BlockReads(utf8, Ascii("././@PaxHeader"), 0, record, EXTENDED, own + rest, None);
      assert Record(utf8, name, data) + rest == extension + (own + rest);
    }
  }

  ghost predicate AllFit(utf8: Utf8, files: Files) {
    forall name :: name in files ==> Fits(utf8, name, files[name])
  }

  lemma {:induction false} RecordsRead(utf8: Utf8, names: seq<string>, files: Files, rest: Data)
    requires utf8.Lawful() && AllFit(utf8, files)
    requires forall i :: 0 <= i < |names| ==> names[i] in files
    requires Members(utf8, rest, None) == Some([])
    ensures Members(utf8, Records(utf8, names, files) + rest, None) == Some(RecoveredAll(names, files))
    decreases |names|
  {
    hide Record, Members, Recovered, Fits;
    if names == [] {
      assert Records(utf8, names, files) + rest == rest;
      assert RecoveredAll(names, files) == [];
    } else {
      var tail := Records(utf8, names[1..], files) + rest;
      RecordsRead(utf8, names[1..], files, rest);
      RecordReads(utf8, names[0], files[names[0]], tail);
      assert Records(utf8, names, files) + rest == Record(utf8, names[0], files[names[0]]) + tail;
      assert RecoveredAll(names, files) == [(Recovered(names[0]), files[names[0]])] + RecoveredAll(names[1..], files);
    }
  }

  lemma EndingReads(utf8: Utf8, size: nat)
    ensures Members(utf8, Ending(size), None) == Some([]) && |Ending(size)| >= 2 * BLOCK
  {
    assert Ending(size)[..BLOCK] == Zeros(BLOCK);
  }

  /** The archive of a file map, its names in the order `names`. */
  function Archived(utf8: Utf8, names: seq<string>, files: Files): Data
    requires forall i :: 0 <= i < |names| ==> names[i] in files
  {
    var records := Records(utf8, names, files);
    records + Ending(|records|)
  }

  /** Nothing at all is no archive, unlike an archive of no files. */
  function Extracted(utf8: Utf8, archive: Data): Option<Files> {
    var members := Members(utf8, archive, None);
    if archive == [] || members.None? then None else Some(Collected(members.value))
  }

  ghost function NormalForm(utf8: Utf8, files: Files): Data {
    Archived(utf8, Sorted(files.Keys), files)
  }

  /** Whether a name comes back unchanged: a plain name must not hold a NUL, an
      extended one must not end in a slash. */
  predicate Survives(name: string) {
    if Plain(name) then 0 as char !in name else name[|name| - 1] != '/'
  }

  lemma {:induction false} UntilNulIsIdentity(b: Data)
    ensures |UntilNul(b)| <= |b| && UntilNul(b) == b[..|UntilNul(b)|]
    ensures UntilNul(b) == b <==> NUL !in b
  {
    if b != [] {
      UntilNulIsIdentity(b[1..]);
      assert b == [b[0]] + b[1..];
    }
  }

  lemma {:induction false} StripSlashesShortens(s: string)
    ensures |StripSlashes(s)| <= |s|
    ensures StripSlashes(s) == s <==> s == "" || s[|s| - 1] != '/'
    decreases |s|
  {
    if s != "" && s[|s| - 1] == '/' {
      StripSlashesShortens(s[..|s| - 1]);
    }
  }

  /** A name survives iff it is recovered; otherwise something shorter is. */
  lemma SurvivesIff(name: string)
    ensures Survives(name) <==> Recovered(name) == name
    ensures !Survives(name) ==> |Recovered(name)| < |name|
  {
    if Plain(name) {
      var b := Ascii(name);
      UntilNulIsIdentity(b);
      assert Text(b) == name;
      assert NUL in b <==> 0 as char in name by {
        if NUL in b { var i :| 0 <= i < |b| && b[i] == NUL; assert name[i] == 0 as char; }
        if 0 as char in name { var i :| 0 <= i < |name| && name[i] == 0 as char; assert b[i] == NUL; }
      }
      if NUL in b {
        assert |UntilNul(b)| < |b|;
      }
    } else {
      StripSlashesShortens(name);
      if !Survives(name) {
        StripSlashesShortens(name[..|name| - 1]);
      }
    }
  }

  lemma {:induction false} CollectedKeys(members: seq<(string, Data)>)
    ensures forall k :: k in Collected(members) <==> exists i :: 0 <= i < |members| && members[i].0 == k
    ensures (forall i, j :: 0 <= i < j < |members| ==> members[i].0 != members[j].0) ==>
              forall i :: 0 <= i < |members| ==> members[i].0 in Collected(members) && Collected(members)[members[i].0] == members[i].1
    decreases |members|
  {
    if members != [] {
      var front, last := members[..|members| - 1], members[|members| - 1];
      CollectedKeys(front);
      forall k
        ensures k in Collected(members) <==> exists i :: 0 <= i < |members| && members[i].0 == k
      {
        if k in Collected(front) {
          var i :| 0 <= i < |front| && front[i].0 == k;
          assert members[i].0 == k;
        }
        if i :| 0 <= i < |members| && members[i].0 == k && k != last.0 {
          assert front[i].0 == k;
        }
      }
    }
  }

  lemma ExtractedIsRecovered(utf8: Utf8, files: Files)
    requires utf8.Lawful() && AllFit(utf8, files)
    ensures Extracted(utf8, NormalForm(utf8, files)) == Some(Collected(RecoveredAll(Sorted(files.Keys), files)))
  {
    hide Members, Records, Ending, RecoveredAll, Fits;
    var names := Sorted(files.Keys);
    var size := |Records(utf8, names, files)|;
    EndingReads(utf8, size);
    RecordsRead(utf8, names, files, Ending(size));
  }

  lemma {:induction false} Longest(names: set<string>) returns (longest: string)
    requires names != {}
    ensures longest in names && forall n :: n in names ==> |n| <= |longest|
    decreases names
  {
    longest :| longest in names;
    if names != {longest} {
      var other := Longest(names - {longest});
      assert forall n :: n in names ==> n == longest || n in names - {longest};
      if |other| > |longest| {
        longest := other;
      }
    }
  }

  lemma SurvivingNamesComeBack(names: seq<string>, files: Files)
    requires ListsStrings(names, files.Keys) && forall i :: 0 <= i < |names| ==> names[i] in files
    requires forall name :: name in files ==> Survives(name)
    ensures Collected(RecoveredAll(names, files)) == files
  {
    hide Recovered, Survives, Collected, ListsStrings;
    var members := RecoveredAll(names, files);
    forall i | 0 <= i < |names|
      ensures members[i] == (names[i], files[names[i]])
    {
      SurvivesIff(names[i]);
    }
    CollectedKeys(members);
    NamesAreDistinct(names, files.Keys);
    NamesAreAll(names, files.Keys);
    var collected := Collected(members);
    forall k
      ensures k in collected <==> k in files
      ensures k in files ==> k in collected && collected[k] == files[k]
    {
      if k in files {
        assert k in names;
        var i :| 0 <= i < |names| && names[i] == k;
        assert members[i].0 == k;
      }
    }
  }

  lemma LongestLostNameIsMissing(names: seq<string>, files: Files)
    requires forall i :: 0 <= i < |names| ==> names[i] in files
    requires exists name :: name in files && !Survives(name)
    ensures exists name :: name in files && name !in Collected(RecoveredAll(names, files))
  {
    hide Recovered, Survives, Collected;
    var members := RecoveredAll(names, files);
    var shortened := set name | name in files && !Survives(name);
    assert shortened != {} by {
      var name :| name in files && !Survives(name);
      assert name in shortened;
    }
    var lost := Longest(shortened);
    CollectedKeys(members);
    forall i | 0 <= i < |members|
      ensures members[i].0 != lost
    {
      SurvivesIff(names[i]);
    }
  }

  /** Extraction undoes building exactly when every name survives. */
  lemma ExtractUndoesBuildIff(utf8: Utf8, files: Files)
    requires utf8.Lawful() && AllFit(utf8, files)
    ensures Extracted(utf8, NormalForm(utf8, files)) == Some(files) <==> forall name :: name in files ==> Survives(name)
  {
    hide Survives, Extracted, NormalForm, Collected, RecoveredAll;
    var names := Sorted(files.Keys);
    ExtractedIsRecovered(utf8, files);
    if forall name :: name in files ==> Survives(name) {
      SurvivingNamesComeBack(names, files);
    } else {
      LongestLostNameIsMissing(names, files);
    }
  }

  lemma NamesAreAll(names: seq<string>, s: set<string>)
    requires ListsStrings(names, s)
    ensures forall k :: k in s <==> k in names
  {
  }

  lemma NamesAreDistinct(names: seq<string>, s: set<string>)
    requires ListsStrings(names, s)
    ensures forall i, j :: 0 <= i < j < |names| ==> names[i] != names[j]
  {
    StringLessIsStrictOrder();
  }

  /** Equal archives mean equal files. */
  lemma ArchiveIdentifiesFiles(utf8: Utf8, f: Files, g: Files)
    requires utf8.Lawful() && AllFit(utf8, f) && AllFit(utf8, g)
    requires forall name :: name in f || name in g ==> Survives(name)
    ensures NormalForm(utf8, f) == NormalForm(utf8, g) <==> f == g
  {
    ExtractUndoesBuildIff(utf8, f);
    ExtractUndoesBuildIff(utf8, g);
  }

  lemma RecordsStep(utf8: Utf8, names: seq<string>, files: Files, i: nat)
    requires i < |names| && forall j :: 0 <= j < |names| ==> names[j] in files
    ensures Records(utf8, names[i..], files) == Record(utf8, names[i], files[names[i]]) + Records(utf8, names[i + 1..], files)
  {
    hide Record;
    assert names[i..][0] == names[i] && names[i..][1..] == names[i + 1..];
  }

  lemma WholeTapeRecords(size: nat)
    ensures (size + |Ending(size)|) % RECORD == 0
  {
  }

  /** The bytes depend on the file map alone, and fill whole tape records. */
  method BuildNormalizedArchive(utf8: Utf8, files: Files) returns (archive: Data)
    ensures archive == NormalForm(utf8, files)
    ensures |archive| % RECORD == 0
  {
    hide Record, Records, Ending, ListsStrings;
    var names := SortStrings(files.Keys);
    ListingIsSorted(names, files.Keys);
    archive := [];
    for i := 0 to |names|
      invariant archive + Records(utf8, names[i..], files) == Records(utf8, names, files)
    {
      RecordsStep(utf8, names, files, i);
      archive := archive + Record(utf8, names[i], files[names[i]]);
    }
    NoRecords(utf8, names[|names|..], files);
    WholeTapeRecords(|archive|);
    archive := archive + Ending(|archive|);
  }

  lemma NoRecords(utf8: Utf8, names: seq<string>, files: Files)
    requires names == []
    ensures Records(utf8, names, files) == []
  {
  }

  method ExtractArchive(utf8: Utf8, archive: Data) returns (files: Option<Files>)
    ensures files == Extracted(utf8, archive)
  {
    var members := Members(utf8, archive, None);
    if archive == [] || members.None? {
      return None;
    }
    var collected: Files := map[];
    for i := 0 to |members.value|
      invariant collected == Collected(members.value[..i])
    {
      assert members.value[..i + 1][..i] == members.value[..i];
      collected := collected[members.value[i].0 := members.value[i].1];
    }
    assert members.value[..|members.value|] == members.value;
    files := Some(collected);
  }
}
