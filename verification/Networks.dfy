/**
 Network prefixes (src/network.cpp): the masks are built word by word, and an address is
 matched word by word. A word is 32 bits, most significant first, in the order in which the
 address is written; so the byte order of the host does not show. What inet_net_pton and
 inet_pton make of the text is an argument.
 */
module Networks {
  import opened Wrappers
  import opened Text

  type Bits = seq<bool>
  type Word = w: Bits | |w| == 32 witness seq(32, i => false)
  type Address = a: seq<Word> | |a| == 4 witness seq(4, i => seq(32, j => false))

  function Zeros(n: nat): (r: Bits) {
    seq(n, i => false)
  }

  function Ones(n: nat): (r: Bits) {
    seq(n, i => true)
  }

  /** A word whose first n bits are set. */
  function LeadingOnes(n: nat): Word
    requires n <= 32
  {
    Ones(n) + Zeros(32 - n)
  }

  function And(a: Word, b: Word): Word {
    seq(32, i requires 0 <= i < 32 => a[i] && b[i])
  }

  // ---------- arithmetic on 64 bits, as in the source ----------

  type DoubleWord = w: Bits | |w| == 64 witness seq(64, i => false)

  function ShiftRight(x: DoubleWord, n: nat): DoubleWord
    requires n <= 64
  {
    Zeros(n) + x[..64 - n]
  }

  function ShiftLeft(x: DoubleWord, n: nat): DoubleWord
    requires n <= 64
  {
    x[n..] + Zeros(n)
  }

  /** The low 32 bits. */
  function LowWord(x: DoubleWord): Word {
    x[32..]
  }

  const HIGH_ONES: DoubleWord := Ones(32) + Zeros(32)
  const LOW_ONES: DoubleWord := Zeros(32) + Ones(32)

  lemma ShiftedRightMask(n: nat)
    requires n <= 32
    ensures LowWord(ShiftRight(HIGH_ONES, n)) == LeadingOnes(n)
  {}

  lemma ShiftedLeftMask(n: nat)
    requires n <= 32
    ensures LowWord(ShiftLeft(LOW_ONES, 32 - n)) == LeadingOnes(n)
  {}

  /** How many bits of word i lie within the prefix. */
  function BitsIn(n: nat, i: nat): (k: nat)
    ensures k <= 32
  {
    if n <= 32 * i then 0 else if n - 32 * i < 32 then n - 32 * i else 32
  }

  // ---------- what a prefix means ----------

  function Pow2(n: nat): (r: nat)
    ensures r > 0
  {
    if n == 0 then 1 else 2 * Pow2(n - 1)
  }

  /** The integer written with these bits. */
  function Value(s: Bits): nat {
    if s == [] then 0 else 2 * Value(s[..|s| - 1]) + (if s[|s| - 1] then 1 else 0)
  }

  function Flat(a: Address): (r: Bits)
    ensures |r| == 128
  {
    var w: seq<Bits> := a;
    w[0] + w[1] + w[2] + w[3]
  }

  /** Two addresses of the same width have the same n-bit prefix, as integers. */
  predicate SamePrefix(a: Bits, b: Bits, n: nat)
    requires n <= |a| == |b|
  {
    Value(a) / Pow2(|a| - n) == Value(b) / Pow2(|b| - n)
  }

  lemma {:induction false} ValueOfPrefix(s: Bits, n: nat)
    requires n <= |s|
    ensures Value(s) / Pow2(|s| - n) == Value(s[..n])
    decreases |s|
  {
    if n == |s| {
      assert s[..n] == s;
    } else {
      var init := s[..|s| - 1];
      ValueOfPrefix(init, n);
      assert init[..n] == s[..n];
      HalfThenRest(Value(s), Pow2(|init| - n));
    }
  }

  lemma HalfThenRest(x: nat, p: nat)
    requires p > 0
    ensures x / (2 * p) == (x / 2) / p
  {
    var q := (x / 2) / p;
    DoubleProduct(q, p);
    DoubleProduct(q + 1, p);
    QuotientIs(x, 2 * p, q);
  }

  lemma DoubleProduct(q: nat, p: nat)
    ensures q * (2 * p) == 2 * (q * p)
  {}

  lemma QuotientIs(x: nat, d: nat, q: nat)
    requires d > 0 && q * d <= x < (q + 1) * d
    ensures x / d == q
  {
    var e := x / d;
    assert e * d <= x < (e + 1) * d;
    if e < q {
      Times(e + 1, q, d);
    } else if e > q {
      Times(q + 1, e, d);
    }
  }

  lemma Times(a: nat, b: nat, d: nat)
    requires a <= b
    ensures a * d <= b * d
  {}

  lemma {:induction false} ValueIsInjective(a: Bits, b: Bits)
    requires |a| == |b| && Value(a) == Value(b)
    ensures a == b
  {
    if a != [] {
      ValueIsInjective(a[..|a| - 1], b[..|b| - 1]);
      assert a == a[..|a| - 1] + [a[|a| - 1]] && b == b[..|b| - 1] + [b[|b| - 1]];
    }
  }

  /** The same prefix means the same leading bits. */
  lemma SamePrefixIffSameBits(a: Bits, b: Bits, n: nat)
    requires n <= |a| == |b|
    ensures SamePrefix(a, b, n) <==> a[..n] == b[..n]
  {
    ValueOfPrefix(a, n);
    ValueOfPrefix(b, n);
    if Value(a[..n]) == Value(b[..n]) {
      ValueIsInjective(a[..n], b[..n]);
    }
  }

  lemma MaskedIffSameBits(a: Word, b: Word, n: nat)
    requires n <= 32
    ensures And(a, LeadingOnes(n)) == And(b, LeadingOnes(n)) <==> a[..n] == b[..n]
  {
    var m := LeadingOnes(n);
    if And(a, m) == And(b, m) {
      forall i | 0 <= i < n ensures a[i] == b[i] {
        assert m[i] && And(a, m)[i] == And(b, m)[i];
      }
    } else if a[..n] == b[..n] {
      forall i | 0 <= i < 32 ensures And(a, m)[i] == And(b, m)[i] {
        assert i < n ==> a[i] == a[..n][i] && b[i] == b[..n][i];
      }
    }
  }

  predicate WordsAgree(a: Address, b: Address, n: nat) {
    forall i | 0 <= i < 4 :: And(a[i], LeadingOnes(BitsIn(n, i))) == And(b[i], LeadingOnes(BitsIn(n, i)))
  }

  lemma FlatAt(a: Address, j: nat)
    requires j < 128
    ensures Flat(a)[j] == a[j / 32][j % 32]
  {}

  /** Word by word under the masks is the first n of all 128 bits. */
  lemma WordsAgreeIffSameBits(a: Address, b: Address, n: nat)
    requires n <= 128
    ensures WordsAgree(a, b, n) <==> Flat(a)[..n] == Flat(b)[..n]
  {
    forall i | 0 <= i < 4
      ensures And(a[i], LeadingOnes(BitsIn(n, i))) == And(b[i], LeadingOnes(BitsIn(n, i))) <==> a[i][..BitsIn(n, i)] == b[i][..BitsIn(n, i)]
    {
      MaskedIffSameBits(a[i], b[i], BitsIn(n, i));
    }
    if WordsAgree(a, b, n) {
      forall j | 0 <= j < n ensures Flat(a)[j] == Flat(b)[j] {
        WordsGiveBit(a, b, n, j);
      }
    } else if Flat(a)[..n] == Flat(b)[..n] {
      forall i | 0 <= i < 4 ensures a[i][..BitsIn(n, i)] == b[i][..BitsIn(n, i)] {
        BitsGiveWord(a, b, n, i);
      }
    }
  }

  lemma WordsGiveBit(a: Address, b: Address, n: nat, j: nat)
    requires j < n <= 128 && forall i | 0 <= i < 4 :: a[i][..BitsIn(n, i)] == b[i][..BitsIn(n, i)]
    ensures Flat(a)[j] == Flat(b)[j]
  {}

  lemma BitsGiveWord(a: Address, b: Address, n: nat, i: nat)
    requires n <= 128 && i < 4 && Flat(a)[..n] == Flat(b)[..n]
    ensures a[i][..BitsIn(n, i)] == b[i][..BitsIn(n, i)]
  {
    forall k | 0 <= k < BitsIn(n, i) ensures a[i][k] == b[i][k] {
      var j := 32 * i + k;
      FlatAt(a, j);
      FlatAt(b, j);
      assert Flat(a)[..n][j] == Flat(b)[..n][j];
      assert j / 32 == i && j % 32 == k;
    }
  }

  /** Main result: the masked words agree exactly when the addresses have the same prefix. */
  lemma WordsAgreeIffSamePrefix(a: Address, b: Address, n: nat)
    requires n <= 128
    ensures WordsAgree(a, b, n) <==> SamePrefix(Flat(a), Flat(b), n)
  {
    WordsAgreeIffSameBits(a, b, n);
    SamePrefixIffSameBits(Flat(a), Flat(b), n);
  }

  /** A longer prefix refines a shorter one. */
  lemma LongerRefinesShorter(a: Bits, b: Bits, m: nat, n: nat)
    requires m <= n <= |a| == |b| && SamePrefix(a, b, n)
    ensures SamePrefix(a, b, m)
  {
    SamePrefixIffSameBits(a, b, n);
    SamePrefixIffSameBits(a, b, m);
    assert a[..m] == a[..n][..m] && b[..m] == b[..n][..m];
  }

  /** What a network matches is one aligned block of integers. */
  lemma PrefixIsABlock(net: Bits, x: Bits, n: nat)
    requires n <= |net| == |x|
    ensures var size := Pow2(|net| - n);
      var base := Value(net) / size * size;
      SamePrefix(net, x, n) <==> base <= Value(x) < base + size
  {
    SameBlock(Value(net), Value(x), Pow2(|net| - n));
  }

  lemma SameBlock(v: nat, x: nat, size: nat)
    requires size > 0
    ensures v / size == x / size <==> v / size * size <= x < v / size * size + size
  {
    var q := v / size;
    assert (q + 1) * size == q * size + size;
    if q * size <= x < q * size + size {
      QuotientIs(x, size, q);
    }
  }

  // ---------- reading a network ----------

  datatype Error = BadMask | BadNetwork

  datatype Net = V4(addr: Word, bits: nat) | V6(addr6: Address, bits6: nat)

  datatype SockAddr = NoAddress | OtherFamily | Inet(addr: Word) | Inet6(addr6: Address)

  datatype Prefix4 = Prefix4(addr: Word, bits: nat)

  /** The address part and the mask of an IPv6 network; without exactly two parts, all 128 bits. */
  function Parts6(text: string): Result<(string, nat), Error>
    requires ':' in text
  {
    SomePart(text);
    var parts := Split(text, '/', 2, false);
    if |parts| != 2 then Success((parts[0], 128))
    else if !AllDigits(parts[1]) || |parts[1]| > 3 then Failure(BadMask)
    else Success((parts[0], Digits(parts[1])))
  }

  /** Reads a network; the two library functions are arguments. A negative mask is no result. */
  function Read(text: string, pton4: string -> Option<Prefix4>, pton6: string -> Option<Address>): Result<Net, Error> {
    if '.' in text then
      match pton4(text)
      case None => Failure(BadNetwork)
      case Some(p) => Success(V4(p.addr, p.bits))
    else if ':' in text then
      match Parts6(text)
      case Failure(e) => Failure(e)
      case Success((addr, bits)) =>
        match pton6(addr)
        case None => Failure(BadNetwork)
        case Some(a) => if bits > 128 then Failure(BadNetwork) else Success(V6(a, bits))
    else Failure(BadNetwork)
  }

  lemma SomePart(text: string)
    requires ':' in text
    ensures Split(text, '/', 2, false) != []
  {}

  /** No kept part is empty, so the mask is never converted from an empty string. */
  lemma {:induction false} KeptPartsAreNotEmpty(text: string, max: nat)
    ensures forall i | 0 <= i < |Split(text, '/', max, false)| :: Split(text, '/', max, false)[i] != ""
    decreases |text|
  {
    var e := FindFrom(text, '/', 0);
    if max != 0 && e != |text| {
      KeptPartsAreNotEmpty(text[e + 1..], if e != 0 then max - 1 else max);
    }
  }

  /** At the first separator a split of a + "/" + b cuts, when a is not empty and has none. */
  lemma SplitCuts(a: string, b: string, max: nat)
    requires a != "" && '/' !in a && max > 0
    ensures Split(a + "/" + b, '/', max, false) == [a] + Split(b, '/', max - 1, false)
  {
    var s := a + "/" + b;
    var e := FindFrom(s, '/', 0);
    FindFromIsFirst(s, '/', 0);
    assert s[|a|] == '/' && forall i | 0 <= i < |a| :: s[i] == a[i];
    assert s[..e] == a && s[e + 1..] == b;
  }

  lemma NotCut(a: string, max: nat)
    requires a != "" && '/' !in a
    ensures Split(a, '/', max, false) == [a]
  {}

  /** An address with a mask is read as such. */
  lemma MaskIsRead(addr: string, mask: string)
    requires ':' in addr && '/' !in addr && '/' !in mask && mask != "" && AllDigits(mask) && |mask| <= 3
    ensures Parts6(addr + "/" + mask) == Success((addr, Digits(mask)))
    ensures Parts6(addr) == Success((addr, 128))
  {
    SplitCuts(addr, mask, 2);
    NotCut(mask, 1);
    NotCut(addr, 2);
    assert |Split(addr + "/" + mask, '/', 2, false)| == 2;
  }

  /** With anything after a second separator the mask is not an error: it is ignored. */
  lemma SecondSlashIgnoresMask(addr: string, mask: string, rest: string)
    requires ':' in addr && '/' !in addr && '/' !in mask && mask != "" && rest != ""
    ensures Parts6(addr + "/" + (mask + "/" + rest)) == Success((addr, 128))
  {
    SplitCuts(addr, mask + "/" + rest, 2);
    SplitCuts(mask, rest, 1);
    assert |Split(addr + "/" + (mask + "/" + rest), '/', 2, false)| == 3;
  }

  predicate Slashes(s: string) {
    forall i | 0 <= i < |s| :: s[i] == '/'
  }

  predicate Plain(s: string) {
    s != "" && '/' !in s
  }

  /** The text has an address, a mask and something after a further slash. */
  predicate HasThird(text: string, lead: string, addr: string, more: string, mask: string, rest: string) {
    && Slashes(lead) && Plain(addr) && Slashes(more) && Plain(mask) && rest != ""
    && text == lead + (addr + "/" + (more + (mask + "/" + rest)))
  }

  lemma {:induction false} LeadIsDropped(lead: string, text: string, max: nat)
    requires Slashes(lead) && max > 0
    ensures Split(lead + text, '/', max, false) == Split(text, '/', max, false)
  {
    if lead == "" {
      assert lead + text == text;
    } else {
      var s := lead + text;
      assert s[0] == '/' && s[1..] == lead[1..] + text;
      assert FindFrom(s, '/', 0) == 0;
      LeadIsDropped(lead[1..], text, max);
    }
  }

  /** The first kept part, with the slashes before it and what comes after the one behind it. */
  lemma {:induction false} Peel(text: string, max: nat) returns (lead: string, part: string, rest: string)
    requires max > 0 && |Split(text, '/', max, false)| >= 2
    ensures Slashes(lead) && Plain(part) && text == lead + (part + "/" + rest)
    ensures Split(text, '/', max, false) == [part] + Split(rest, '/', max - 1, false)
    decreases |text|
  {
    var e := FindFrom(text, '/', 0);
    if e == 0 {
      lead, part, rest := Peel(text[1..], max);
      AddLead(text, lead, part + "/" + rest);
      lead := "/" + lead;
    } else {
      part, rest := CutAtSlash(text, e);
      lead := "";
    }
  }

  lemma AddLead(text: string, lead: string, tail: string)
    requires text != "" && text[0] == '/' && text[1..] == lead + tail
    ensures text == "/" + lead + tail
  {
    assert text == [text[0]] + text[1..];
  }

  lemma CutAtSlash(text: string, e: nat) returns (part: string, rest: string)
    requires 0 < e == FindFrom(text, '/', 0) < |text|
    ensures part == text[..e] && rest == text[e + 1..] && Plain(part) && text == "" + (part + "/" + rest)
  {
    FindFromIsFirst(text, '/', 0);
    part, rest := text[..e], text[e + 1..];
    assert text == text[..e] + [text[e]] + text[e + 1..];
  }

  /** Three parts are kept exactly when the text has something after a second slash. */
  lemma ThreePartsIff(text: string)
    ensures |Split(text, '/', 2, false)| == 3 <==> exists lead, addr, more, mask, rest :: HasThird(text, lead, addr, more, mask, rest)
    ensures |Split(text, '/', 2, false)| <= 3
  {
    AtMostMore(text, 2);
    if |Split(text, '/', 2, false)| == 3 {
      var lead, addr, tail := Peel(text, 2);
      var more, mask, rest := Peel(tail, 1);
      assert HasThird(text, lead, addr, more, mask, rest);
    }
    forall lead, addr, more, mask, rest | HasThird(text, lead, addr, more, mask, rest) ensures |Split(text, '/', 2, false)| == 3 {
      LeadIsDropped(lead, addr + "/" + (more + (mask + "/" + rest)), 2);
      SplitCuts(addr, more + (mask + "/" + rest), 2);
      LeadIsDropped(more, mask + "/" + rest, 1);
      SplitCuts(mask, rest, 1);
    }
  }

  lemma {:induction false} AtMostMore(text: string, max: nat)
    ensures |Split(text, '/', max, false)| <= max + 1
    decreases |text|
  {
    var e := FindFrom(text, '/', 0);
    if max != 0 && e != |text| {
      AtMostMore(text[e + 1..], if e != 0 then max - 1 else max);
    }
  }

  /** A mask that does not say 128 is ignored, and 128 taken, if and only if three parts are kept. */
  lemma MaskIgnoredIff(text: string)
    requires ':' in text && |Split(text, '/', 2, false)| >= 2
    requires var mask := Split(text, '/', 2, false)[1]; !(AllDigits(mask) && |mask| <= 3 && Digits(mask) == 128)
    ensures Parts6(text) == Success((Split(text, '/', 2, false)[0], 128)) <==> |Split(text, '/', 2, false)| == 3
  {
    AtMostMore(text, 2);
  }

  // ---------- what a text says, whoever reads it ----------

  /** The text has an address and nothing else but slashes. */
  predicate HasOne(text: string, lead: string, addr: string, end: string) {
    Slashes(lead) && Plain(addr) && Slashes(end) && text == lead + (addr + end)
  }

  /** The text has an address and a mask, and at most one slash after that. */
  predicate HasTwo(text: string, lead: string, addr: string, more: string, mask: string, end: string) {
    && Slashes(lead) && Plain(addr) && Slashes(more) && Plain(mask) && (end == "" || end == "/")
    && text == lead + (addr + "/" + (more + (mask + end)))
  }

  /** The text gives this address, and this mask if it gives one. */
  ghost predicate Spells(text: string, addr: string, mask: Option<string>) {
    match mask
    case Some(m) => exists lead, more, end :: HasTwo(text, lead, addr, more, m, end)
    case None =>
      || (exists lead, end :: HasOne(text, lead, addr, end))
      || (exists lead, more, m, rest :: HasThird(text, lead, addr, more, m, rest))
  }

  lemma {:induction false} OnlySlashes(s: string, max: nat)
    requires Slashes(s) && max > 0
    ensures Split(s, '/', max, false) == []
    decreases |s|
  {
    if s != "" {
      OnlySlashes(s[1..], max);
    }
  }

  lemma {:induction false} NothingKept(s: string, max: nat)
    requires max > 0 && Split(s, '/', max, false) == []
    ensures Slashes(s)
    decreases |s|
  {
    if s != "" {
      var e := FindFrom(s, '/', 0);
      assert e == 0;
      NothingKept(s[1..], max);
      assert forall i | 1 <= i < |s| :: s[i] == s[1..][i - 1];
    }
  }

  lemma OnePartIs(text: string, lead: string, addr: string, end: string)
    requires HasOne(text, lead, addr, end)
    ensures Split(text, '/', 2, false) == [addr]
  {
    LeadIsDropped(lead, addr + end, 2);
    if end == "" {
      assert addr + end == addr;
      NotCut(addr, 2);
    } else {
      assert addr + end == addr + "/" + end[1..];
      SplitCuts(addr, end[1..], 2);
      OnlySlashes(end[1..], 1);
    }
  }

  lemma LastIs(mask: string, end: string)
    requires Plain(mask) && (end == "" || end == "/")
    ensures Split(mask + end, '/', 1, false) == [mask]
  {
    if end == "" {
      assert mask + end == mask;
      NotCut(mask, 1);
    } else {
      assert mask + end == mask + "/" + "";
      SplitCuts(mask, "", 1);
    }
  }

  lemma TwoPartsAre(text: string, lead: string, addr: string, more: string, mask: string, end: string)
    requires HasTwo(text, lead, addr, more, mask, end)
    ensures Split(text, '/', 2, false) == [addr, mask]
  {
    LeadIsDropped(lead, addr + "/" + (more + (mask + end)), 2);
    SplitCuts(addr, more + (mask + end), 2);
    LeadIsDropped(more, mask + end, 1);
    LastIs(mask, end);
  }

  lemma ThreePartsAre(text: string, lead: string, addr: string, more: string, mask: string, rest: string)
    requires HasThird(text, lead, addr, more, mask, rest)
    ensures |Split(text, '/', 2, false)| == 3 && Split(text, '/', 2, false)[0] == addr
  {
    LeadIsDropped(lead, addr + "/" + (more + (mask + "/" + rest)), 2);
    SplitCuts(addr, more + (mask + "/" + rest), 2);
    LeadIsDropped(more, mask + "/" + rest, 1);
    SplitCuts(mask, rest, 1);
  }

  /** The last kept part, with the slashes before it and what comes after it. */
  lemma {:induction false} PeelLast(text: string, max: nat) returns (lead: string, part: string, end: string)
    requires max > 0 && |Split(text, '/', max, false)| == 1
    ensures Slashes(lead) && Plain(part) && text == lead + (part + end) && Split(text, '/', max, false) == [part]
    ensures end == "" || (end[0] == '/' && Split(end[1..], '/', max - 1, false) == [])
    decreases |text|
  {
    var e := FindFrom(text, '/', 0);
    FindFromIsFirst(text, '/', 0);
    if e == |text| {
      lead, part, end := "", text, "";
      assert text == "" + (text + "");
    } else if e == 0 {
      lead, part, end := PeelLast(text[1..], max);
      AddLead(text, lead, part + end);
      lead := "/" + lead;
    } else {
      lead, part, end := "", text[..e], text[e..];
      assert end[1..] == text[e + 1..];
      assert text == "" + (text[..e] + text[e..]);
    }
  }

  /** Every text gives an address and perhaps a mask. */
  lemma SomeSpelling(text: string) returns (addr: string, mask: Option<string>)
    requires ':' in text
    ensures Spells(text, addr, mask)
  {
    SomePart(text);
    AtMostMore(text, 2);
    if |Split(text, '/', 2, false)| == 1 {
      var lead, a, end := PeelLast(text, 2);
      addr, mask := a, None;
      if end != "" {
        NothingKept(end[1..], 1);
      }
      assert HasOne(text, lead, a, end);
    } else {
      var lead, a, tail := Peel(text, 2);
      addr := a;
      if |Split(tail, '/', 1, false)| == 1 {
        var more, m, end := PeelLast(tail, 1);
        assert end != "" ==> end == "/" + end[1..];
        mask := Some(m);
        assert HasTwo(text, lead, a, more, m, end);
      } else {
        var more, m, rest := Peel(tail, 1);
        mask := None;
        assert rest != "" by { assert Split(rest, '/', 0, false) != []; }
        assert HasThird(text, lead, a, more, m, rest);
      }
    }
  }

  lemma PartsAreSpelled(text: string, addr: string, mask: Option<string>)
    requires Spells(text, addr, mask)
    ensures var parts := Split(text, '/', 2, false);
      && parts != [] && parts[0] == addr
      && (mask.Some? ==> |parts| == 2 && parts[1] == mask.value) && (mask == None ==> |parts| != 2)
  {
    match mask
    case Some(m) =>
      var lead, more, end :| HasTwo(text, lead, addr, more, m, end);
      TwoPartsAre(text, lead, addr, more, m, end);
    case None =>
      if lead, end :| HasOne(text, lead, addr, end) {
        OnePartIs(text, lead, addr, end);
      } else {
        var lead, more, m, rest :| HasThird(text, lead, addr, more, m, rest);
        ThreePartsAre(text, lead, addr, more, m, rest);
      }
  }

  /** The network of an IPv6 address and a mask of 0 to 128; without a mask it is the one address. */
  predicate Network6(r: Result<Net, Error>, addr: Option<Address>, mask: Option<string>) {
    if mask.Some? && !(AllDigits(mask.value) && |mask.value| <= 3) then r == Failure(BadMask)
    else
      var bits := if mask == None then 128 else Digits(mask.value);
      if addr == None || bits > 128 then r == Failure(BadNetwork) else r == Success(V6(addr.value, bits))
  }

  /**
   Main result: which network every text is. With a dot it is what the library makes of it as an
   IPv4 network; else with a colon it is that of the address and the mask it spells; else none.
   */
  lemma TextIsNetwork(text: string, pton4: string -> Option<Prefix4>, pton6: string -> Option<Address>)
    ensures var r := Read(text, pton4, pton6);
      && ('.' in text ==> r == if pton4(text) == None then Failure(BadNetwork) else Success(V4(pton4(text).value.addr, pton4(text).value.bits)))
      && ('.' !in text && ':' !in text ==> r == Failure(BadNetwork))
      && ('.' !in text && ':' in text ==> exists addr, mask :: Spells(text, addr, mask))
      && (forall addr, mask | '.' !in text && ':' in text && Spells(text, addr, mask) :: Network6(r, pton6(addr), mask))
  {
    if '.' !in text && ':' in text {
      var addr, mask := SomeSpelling(text);
      forall a, m | Spells(text, a, m) ensures Network6(Read(text, pton4, pton6), pton6(a), m) {
        PartsAreSpelled(text, a, m);
      }
    }
  }

  /** The meaning of a match. */
  predicate Matches(net: Net, a: SockAddr)
    requires WellFormed(net)
  {
    match (net, a)
    case (V4(x, n), Inet(y)) => SamePrefix(x, y, n)
    case (V6(x, n), Inet6(y)) => SamePrefix(Flat(x), Flat(y), n)
    case _ => false
  }

  predicate WellFormed(net: Net) {
    (net.V4? ==> net.bits <= 32) && (net.V6? ==> net.bits6 <= 128)
  }

  /** The library answers with at most 32 mask bits. */
  ghost predicate SoundPton4(pton4: string -> Option<Prefix4>) {
    forall text: string :: pton4(text).Some? ==> pton4(text).value.bits <= 32
  }

  datatype Family = UnspecFamily | InetFamily | Inet6Family

  class Network {
    var family: Family
    var data: Word
    var inMask: Word
    const in6Mask: array<Word>
    const relevant: array<Word>

    constructor ()
      ensures family == UnspecFamily && fresh(in6Mask) && fresh(relevant)
      ensures in6Mask.Length == 4 && relevant.Length == 4 && in6Mask != relevant
      ensures forall i | 0 <= i < 4 :: in6Mask[i] == LeadingOnes(0)
    {
      family := UnspecFamily;
      data := Zeros(32);
      inMask := Zeros(32);
      in6Mask := new Word[4](i => LeadingOnes(0));
      relevant := new Word[4](i => Zeros(32));
    }

    ghost predicate Represents(net: Net)
      reads this, in6Mask, relevant
    {
      && WellFormed(net)
      && match net
         case V4(a, n) => family == InetFamily && data == a && inMask == LeadingOnes(n)
         case V6(a, n) =>
           && family == Inet6Family && in6Mask.Length == 4 && relevant.Length == 4
           && (forall i | 0 <= i < 4 :: in6Mask[i] == LeadingOnes(BitsIn(n, i)))
           && (forall i | 0 <= i < 4 :: relevant[i] == And(a[i], in6Mask[i]))
    }

    method Load4(p: Prefix4)
      requires p.bits <= 32
      modifies this
      ensures Represents(V4(p.addr, p.bits))
    {
      data := p.addr;
      ShiftedLeftMask(p.bits);
      inMask := LowWord(ShiftLeft(LOW_ONES, 32 - p.bits));
      family := InetFamily;
    }

    /** Word i of the mask gets as many leading ones as the prefix has bits in it; no index is out of range. */
    method BuildMask(bits: nat)
      requires bits <= 128 && in6Mask.Length == 4 && forall i | 0 <= i < 4 :: in6Mask[i] == LeadingOnes(0)
      modifies in6Mask
      ensures forall i | 0 <= i < 4 :: in6Mask[i] == LeadingOnes(BitsIn(bits, i))
    {
      var m: int := bits;
      var i := 0;
      while m > 0
        invariant 0 <= i <= 4 && m == bits - 32 * i && m > -32
        invariant forall k | 0 <= k < i :: in6Mask[k] == LeadingOnes(BitsIn(bits, k))
        invariant forall k | i <= k < 4 :: in6Mask[k] == LeadingOnes(0)
      {
        var shift := if m < 32 then m else 32;
        ShiftedRightMask(shift);
        in6Mask[i] := LowWord(ShiftRight(HIGH_ONES, shift));
        i := i + 1;
        m := m - 32;
      }
    }

    method Load6(a: Address, bits: nat)
      requires bits <= 128 && in6Mask.Length == 4 && relevant.Length == 4 && in6Mask != relevant
      requires forall i | 0 <= i < 4 :: in6Mask[i] == LeadingOnes(0)
      modifies this, in6Mask, relevant
      ensures Represents(V6(a, bits))
    {
      BuildMask(bits);
      for i := 0 to 4
        invariant forall k | 0 <= k < 4 :: in6Mask[k] == LeadingOnes(BitsIn(bits, k))
        invariant forall k | 0 <= k < i :: relevant[k] == And(a[k], in6Mask[k])
      {
        relevant[i] := And(a[i], in6Mask[i]);
      }
      family := Inet6Family;
    }

    /** An address matches exactly when it is of the family and has the same prefix. */
    method Match(a: SockAddr, ghost net: Net) returns (r: bool)
      requires Represents(net)
      ensures r <==> Matches(net, a)
    {
      match a
      case NoAddress => r := false;
      case OtherFamily => r := false;
      case Inet(x) =>
        r := family == InetFamily && And(data, inMask) == And(x, inMask);
        if net.V4? {
          MaskedIffSameBits(net.addr, x, net.bits);
          SamePrefixIffSameBits(net.addr, x, net.bits);
        }
      case Inet6(x) =>
        if family != Inet6Family {
          return false;
        }
        r := MatchWords(x);
        WordsAgreeIffSamePrefix(net.addr6, x, net.bits6);
        assert r <==> forall i | 0 <= i < 4 :: And(x[i], in6Mask[i]) == And(net.addr6[i], in6Mask[i]);
    }

    method MatchWords(x: Address) returns (r: bool)
      requires in6Mask.Length == 4 && relevant.Length == 4
      ensures r <==> forall i | 0 <= i < 4 :: And(x[i], in6Mask[i]) == relevant[i]
    {
      var bits := new Word[4];
      for i := 0 to 4
        invariant forall k | 0 <= k < i :: bits[k] == And(x[k], in6Mask[k])
      {
        bits[i] := And(x[i], in6Mask[i]);
      }
      var matches := new bool[4];
      for i := 0 to 4
        invariant forall k | 0 <= k < 4 :: bits[k] == And(x[k], in6Mask[k])
        invariant forall k | 0 <= k < i :: matches[k] == (bits[k] == relevant[k])
      {
        matches[i] := bits[i] == relevant[i];
      }
      r := matches[0] && matches[1] && matches[2] && matches[3];
      assert r <==> forall i | 0 <= i < 4 :: matches[i];
    }
  }

  /** The constructor of the source: it throws on text that is no network. */
  method Construct(text: string, pton4: string -> Option<Prefix4>, pton6: string -> Option<Address>) returns (r: Result<Network, Error>)
    requires SoundPton4(pton4)
    ensures var spec := Read(text, pton4, pton6);
      match spec
      case Failure(e) => r == Failure(e)
      case Success(net) => r.Success? && fresh(r.value) && r.value.Represents(net)
  {
    var n := new Network();
    if '.' in text {
      match pton4(text)
      case None => return Failure(BadNetwork);
      case Some(p) => n.Load4(p);
    } else if ':' in text {
      var parts := Parts6(text);
      if parts.Failure? {
        return Failure(parts.error);
      }
      var addr := pton6(parts.value.0);
      if addr == None || parts.value.1 > 128 {
        return Failure(BadNetwork);
      }
      n.Load6(addr.value, parts.value.1);
    } else {
      return Failure(BadNetwork);
    }
    r := Success(n);
  }
}
