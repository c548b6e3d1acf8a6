/** Signed service requests: the key registry, and the clock and nonce checks. */
module Auth {
  import opened Common
  import opened Text
  import opened NonceStore
  import Decimal

  datatype Scope = Read | TxConstruct | TxSubmit | Admin | Diagnostics

  function ScopeName(scope: Scope): string {
    match scope
    case Read => "read"
    case TxConstruct => "tx_construct"
    case TxSubmit => "tx_submit"
    case Admin => "admin"
    case Diagnostics => "diagnostics"
  }

  function ParseScope(s: string): (r: Option<Scope>)
    ensures forall scope :: r == Some(scope) <==> s == ScopeName(scope)
    ensures r == Some(Read) <==> s == "read"
    ensures r == Some(TxConstruct) <==> s == "tx_construct"
    ensures r == Some(TxSubmit) <==> s == "tx_submit"
    ensures r == Some(Admin) <==> s == "admin"
    ensures r == Some(Diagnostics) <==> s == "diagnostics"
  {
    match s
    case "read" => Some(Read)
    case "tx_construct" => Some(TxConstruct)
    case "tx_submit" => Some(TxSubmit)
    case "admin" => Some(Admin)
    case "diagnostics" => Some(Diagnostics)
    case _ => None
  }

  datatype ServiceKey = ServiceKey(secret: seq<nat>, scopes: seq<Scope>)

  type Registry = map<string, ServiceKey>

  // ---------- parsing the registry ----------

  function HexNibble(c: char): Option<nat> {
    if '0' <= c <= '9' then Some(c as nat - '0' as nat)
    else if 'a' <= c <= 'f' then Some(c as nat - 'a' as nat + 10)
    else if 'A' <= c <= 'F' then Some(c as nat - 'A' as nat + 10)
    else None
  }

  function HexDecode(s: string): (r: Option<seq<nat>>)
    ensures r.Some? ==> 2 * |r.value| == |s|
  {
    if s == [] then Some([])
    else if |s| == 1 then None
    else
      var hi, lo, rest := HexNibble(s[0]), HexNibble(s[1]), HexDecode(s[2..]);
      if hi.Some? && lo.Some? && rest.Some? then Some([16 * hi.value + lo.value] + rest.value) else None
  }

  /** The digits of either case, by their value. */
  const LOWER := "0123456789abcdef"
  const UPPER := "0123456789ABCDEF"

  predicate IsDigit(c: char, n: nat) {
    n < 16 && (c == LOWER[n] || c == UPPER[n])
  }

  /** Two digits spell a byte: the high half first, each in either case. */
  predicate Spells(hi: char, lo: char, b: nat) {
    b < 256 && IsDigit(hi, b / 16) && IsDigit(lo, b % 16)
  }

  predicate SpellsAll(s: string, bytes: seq<nat>) {
    |s| == 2 * |bytes| && forall i :: 0 <= i < |bytes| ==> Spells(s[2 * i], s[2 * i + 1], bytes[i])
  }

  lemma NibbleOfDigit(c: char, n: nat)
    requires IsDigit(c, n)
    ensures HexNibble(c) == Some(n)
  {
  }

  lemma DigitOfNibble(c: char)
    requires HexNibble(c).Some?
    ensures IsDigit(c, HexNibble(c).value)
  {
    var n := HexNibble(c).value;
    if n < 10 {
      assert LOWER[n] == '0' + n as char;
    } else {
      assert LOWER[n] == 'a' + (n - 10) as char && UPPER[n] == 'A' + (n - 10) as char;
    }
  }

  lemma Halves(b: nat, hi: nat, lo: nat)
    requires lo < 16
    ensures b == 16 * hi + lo <==> b / 16 == hi && b % 16 == lo
  {
  }

  lemma SpelledByte(hi: char, lo: char, b: nat)
    requires Spells(hi, lo, b)
    ensures HexNibble(hi) == Some(b / 16) && HexNibble(lo) == Some(b % 16)
  {
    NibbleOfDigit(hi, b / 16);
    NibbleOfDigit(lo, b % 16);
  }

  lemma ByteSpelled(hi: char, lo: char)
    requires HexNibble(hi).Some? && HexNibble(lo).Some?
    ensures HexNibble(lo).value < 16 && Spells(hi, lo, 16 * HexNibble(hi).value + HexNibble(lo).value)
  {
    var h, l := HexNibble(hi).value, HexNibble(lo).value;
    DigitOfNibble(hi);
    DigitOfNibble(lo);
    Halves(16 * h + l, h, l);
  }

  /** What two characters decode to, if anything. */
  function Pair(hi: char, lo: char): Option<nat> {
    if HexNibble(hi).Some? && HexNibble(lo).Some? then Some(16 * HexNibble(hi).value + HexNibble(lo).value) else None
  }

  lemma SpelledPair(hi: char, lo: char, b: nat)
    requires Spells(hi, lo, b)
    ensures Pair(hi, lo) == Some(b)
  {
    SpelledByte(hi, lo, b);
    Halves(b, b / 16, b % 16);
  }

  lemma PairSpelled(hi: char, lo: char, b: nat)
    requires Pair(hi, lo) == Some(b)
    ensures Spells(hi, lo, b)
  {
    ByteSpelled(hi, lo);
  }

  lemma ByteExactly(hi: char, lo: char, b: nat)
    ensures Spells(hi, lo, b) <==> Pair(hi, lo) == Some(b)
  {
    if Spells(hi, lo, b) {
      SpelledPair(hi, lo, b);
    } else if Pair(hi, lo) == Some(b) {
      PairSpelled(hi, lo, b);
    }
  }

  /** Decoding reads exactly the hex spelling of the bytes it gives, in either case. */
  lemma {:induction false} HexExactly(s: string, bytes: seq<nat>)
    ensures HexDecode(s) == Some(bytes) <==> SpellsAll(s, bytes)
    decreases |s|
  {
    if |s| >= 2 && bytes != [] {
      HexExactly(s[2..], bytes[1..]);
      ByteExactly(s[0], s[1], bytes[0]);
      SpellsTail(s, bytes);
      assert bytes == [bytes[0]] + bytes[1..];
      assert HexDecode(s) == Some(bytes) ==> HexDecode(s).value[1..] == bytes[1..];
    }
  }

  predicate IsHex(c: char) {
    c in LOWER || c in UPPER
  }

  lemma NibbleExists(c: char)
    ensures HexNibble(c).Some? <==> IsHex(c)
  {
    if c in LOWER {
      var n :| 0 <= n < |LOWER| && LOWER[n] == c;
      NibbleOfDigit(c, n);
    } else if c in UPPER {
      var n :| 0 <= n < |UPPER| && UPPER[n] == c;
      NibbleOfDigit(c, n);
    } else if HexNibble(c).Some? {
      DigitOfNibble(c);
    }
  }

  /** What can be decoded is an even number of hex digits, and nothing else. */
  lemma {:induction false} HexDecodable(s: string)
    ensures HexDecode(s).Some? <==> |s| % 2 == 0 && forall c :: c in s ==> IsHex(c)
    decreases |s|
  {
    if |s| >= 2 {
      HexDecodable(s[2..]);
      NibbleExists(s[0]);
      NibbleExists(s[1]);
      assert s == [s[0], s[1]] + s[2..];
    }
  }

  lemma SpellsTail(s: string, bytes: seq<nat>)
    requires |s| >= 2 && bytes != []
    ensures SpellsAll(s, bytes) <==> Spells(s[0], s[1], bytes[0]) && SpellsAll(s[2..], bytes[1..])
  {
    var t, rest := s[2..], bytes[1..];
    if |s| == 2 * |bytes| {
      assert forall i :: 0 <= i < |rest| ==> t[2 * i] == s[2 * (i + 1)] && t[2 * i + 1] == s[2 * (i + 1) + 1];
      if Spells(s[0], s[1], bytes[0]) && SpellsAll(t, rest) {
        forall i | 0 <= i < |bytes|
          ensures Spells(s[2 * i], s[2 * i + 1], bytes[i])
        {
          if i > 0 {
            assert Spells(t[2 * (i - 1)], t[2 * (i - 1) + 1], rest[i - 1]);
          }
        }
      }
      if SpellsAll(s, bytes) {
        assert Spells(s[2 * 0], s[2 * 0 + 1], bytes[0]);
        forall i | 0 <= i < |rest|
          ensures Spells(t[2 * i], t[2 * i + 1], rest[i])
        {
          assert Spells(s[2 * (i + 1)], s[2 * (i + 1) + 1], bytes[i + 1]);
        }
      }
    }
  }

  function ParseScopes(names: seq<string>): (r: Option<seq<Scope>>)
    ensures r.Some? ==> |r.value| == |names|
  {
    if names == [] then Some([])
    else
      var first, rest := ParseScope(names[0]), ParseScopes(names[1..]);
      if first.Some? && rest.Some? then Some([first.value] + rest.value) else None
  }

  /** One `key_id:hex_secret:scope|scope` entry, cut at its first two colons. */
  function ParseEntry(entry: string): (r: Result<(string, ServiceKey)>)
    ensures r.Ok? ==> ':' !in r.value.0 && r.value.0 != ""
    ensures r.Ok? ==> |r.value.1.secret| >= 16 && r.value.1.scopes != []
    ensures r.Err? ==> r.error == InvalidRequest
  {
    var keyId, rest := Before(entry, ':'), Text.After(entry, ':');
    var secretHex, scopesRaw := Before(rest, ':'), Text.After(rest, ':');
    if keyId == "" || secretHex == "" || scopesRaw == "" then Err(InvalidRequest)
    else
      var secret, scopes := HexDecode(secretHex), ParseScopes(Split(scopesRaw, '|'));
      if secret.None? || |secret.value| < 16 || scopes.None? then Err(InvalidRequest)
      else Ok((keyId, ServiceKey(secret.value, scopes.value)))
  }

  function ScopeNames(scopes: seq<Scope>): (names: seq<string>)
    ensures |names| == |scopes|
    ensures forall i :: 0 <= i < |names| ==> '|' !in names[i] && names[i] != ""
  {
    seq(|scopes|, i requires 0 <= i < |scopes| => ScopeName(scopes[i]))
  }

  lemma {:induction false} ScopesRoundTrip(scopes: seq<Scope>)
    ensures ParseScopes(ScopeNames(scopes)) == Some(scopes)
  {
    if scopes != [] {
      ScopesRoundTrip(scopes[1..]);
      assert ScopeNames(scopes)[1..] == ScopeNames(scopes[1..]);
      assert scopes == [scopes[0]] + scopes[1..];
    }
  }

  lemma {:induction false} ScopesExactly(names: seq<string>, scopes: seq<Scope>)
    ensures ParseScopes(names) == Some(scopes) <==> names == ScopeNames(scopes)
  {
    ScopesRoundTrip(scopes);
    if ParseScopes(names) == Some(scopes) && names != [] {
      ScopesExactly(names[1..], scopes[1..]);
      assert ScopeNames(scopes)[1..] == ScopeNames(scopes[1..]);
      assert names == [names[0]] + names[1..] && ScopeNames(scopes) == [ScopeName(scopes[0])] + ScopeNames(scopes[1..]);
    }
  }

  /** The documented form: id, secret in hex, scopes by name. */
  function Entry(keyId: string, secretHex: string, scopes: seq<Scope>): string {
    keyId + ":" + (secretHex + ":" + Join(ScopeNames(scopes), '|'))
  }

  predicate Registrable(keyId: string, key: ServiceKey) {
    keyId != "" && ':' !in keyId && |key.secret| >= 16 && key.scopes != []
  }

  lemma HexHasNoColon(s: string)
    requires HexDecode(s).Some?
    ensures ':' !in s
  {
    HexDecodable(s);
    NibbleExists(':');
  }

  /** An entry in the documented form, its secret of at least 16 bytes written
      in hex of either case, reads back as that id with those bytes and scopes. */
  lemma EntryRoundTrip(keyId: string, secretHex: string, key: ServiceKey)
    requires Registrable(keyId, key) && SpellsAll(secretHex, key.secret)
    ensures ParseEntry(Entry(keyId, secretHex, key.scopes)) == Ok((keyId, key))
  {
    HexExactly(secretHex, key.secret);
    HexHasNoColon(secretHex);
    var names := ScopeNames(key.scopes);
    FindJoin(keyId, ':', secretHex + ":" + Join(names, '|'));
    FindJoin(secretHex, ':', Join(names, '|'));
    SplitInvertsJoin(names, '|');
    ScopesRoundTrip(key.scopes);
  }

  /** And nothing else is accepted. */
  lemma EntryExactly(entry: string, keyId: string, key: ServiceKey)
    ensures ParseEntry(entry) == Ok((keyId, key)) <==>
            && Registrable(keyId, key)
            && exists hex :: SpellsAll(hex, key.secret) && entry == Entry(keyId, hex, key.scopes)
  {
    if ParseEntry(entry) == Ok((keyId, key)) {
      var rest := Text.After(entry, ':');
      var hex, raw := Before(rest, ':'), Text.After(rest, ':');
      FindSplits(entry, ':');
      FindSplits(rest, ':');
      HexExactly(hex, key.secret);
      ScopesExactly(Split(raw, '|'), key.scopes);
      JoinInvertsSplit(raw, '|');
      assert entry == Entry(keyId, hex, key.scopes);
    }
    forall hex | Registrable(keyId, key) && SpellsAll(hex, key.secret) && entry == Entry(keyId, hex, key.scopes)
      ensures ParseEntry(entry) == Ok((keyId, key))
    {
      EntryRoundTrip(keyId, hex, key);
    }
  }

  function Trim(s: string, space: char -> bool): (r: string)
    ensures r != [] ==> !space(r[0]) && !space(r[|r| - 1])
  {
    if s != [] && space(s[0]) then Trim(s[1..], space)
    else if s != [] && space(s[|s| - 1]) then Trim(s[..|s| - 1], space)
    else s
  }

  predicate OnlySpace(s: string, space: char -> bool) {
    forall c :: c in s ==> space(c)
  }

  /** Trimming takes off white space at both ends, and nothing else. */
  lemma {:induction false} TrimTakesSpace(s: string, space: char -> bool) returns (before: string, after: string)
    ensures s == before + (Trim(s, space) + after)
    ensures OnlySpace(before, space) && OnlySpace(after, space)
  {
    if s != [] && space(s[0]) {
      before, after := TrimTakesSpace(s[1..], space);
      Assoc([s[0]], before, Trim(s, space) + after);
      assert s == [s[0]] + s[1..];
      before := [s[0]] + before;
    } else if s != [] && space(s[|s| - 1]) {
      var rest, last := s[..|s| - 1], [s[|s| - 1]];
      before, after := TrimTakesSpace(rest, space);
      Assoc(before, Trim(s, space) + after, last);
      Assoc(Trim(s, space), after, last);
      assert s == rest + last;
      after := after + last;
    } else {
      before, after := "", "";
      assert s == "" + (s + "");
    }
  }

  /** The piece is blank, or an entry. */
  predicate Readable(piece: string, space: char -> bool) {
    Trim(piece, space) == "" || ParseEntry(Trim(piece, space)).Ok?
  }

  /** The id and key a piece gives, if it gives one. */
  function Given(piece: string, space: char -> bool): Option<(string, ServiceKey)> {
    if Trim(piece, space) == "" then None
    else
      match ParseEntry(Trim(piece, space))
      case Ok(entry) => Some(entry)
      case Err(_) => None
  }

  function AllGiven(pieces: seq<string>, space: char -> bool): (gs: seq<Option<(string, ServiceKey)>>)
    ensures |gs| == |pieces| && forall i :: 0 <= i < |gs| ==> gs[i] == Given(pieces[i], space)
  {
    seq(|pieces|, i requires 0 <= i < |pieces| => Given(pieces[i], space))
  }

  /** Some place gives `id` this key, and no later place gives it any. */
  ghost predicate LastGives(gs: seq<Option<(string, ServiceKey)>>, id: string, key: ServiceKey) {
    exists i :: 0 <= i < |gs| && gs[i] == Some((id, key)) && NoneAfter(gs, i, id)
  }

  predicate NoneAfter(gs: seq<Option<(string, ServiceKey)>>, i: int, id: string) {
    forall j :: 0 <= i < j < |gs| ==> gs[j] == None || gs[j].value.0 != id
  }

  predicate Maps(keys: Registry, id: string, key: ServiceKey) {
    id in keys && keys[id] == key
  }

  /** The registry holds for each id what was given for it last. */
  ghost predicate Holds(keys: Registry, gs: seq<Option<(string, ServiceKey)>>) {
    forall id, key :: Maps(keys, id, key) <==> LastGives(gs, id, key)
  }

  /** What one more place does to the registry. */
  function Adding(keys: Registry, g: Option<(string, ServiceKey)>): Registry {
    if g == None then keys else keys[g.value.0 := g.value.1]
  }

  lemma LastGivesExtends(gs: seq<Option<(string, ServiceKey)>>, g: Option<(string, ServiceKey)>, id: string,
                         key: ServiceKey)
    ensures LastGives(gs + [g], id, key) <==>
            g == Some((id, key)) || (LastGives(gs, id, key) && (g == None || g.value.0 != id))
  {
    var all := gs + [g];
    if g == Some((id, key)) {
      assert all[|gs|] == g && NoneAfter(all, |gs|, id);
    } else if LastGives(gs, id, key) && (g == None || g.value.0 != id) {
      var i :| 0 <= i < |gs| && gs[i] == Some((id, key)) && NoneAfter(gs, i, id);
      assert all[i] == gs[i] && NoneAfter(all, i, id);
    }
    assert all[|gs|] == g;
    assert forall j :: 0 <= j < |gs| ==> all[j] == gs[j];
  }

  lemma HoldsOn(keys: Registry, gs: seq<Option<(string, ServiceKey)>>, g: Option<(string, ServiceKey)>)
    requires Holds(keys, gs)
    ensures Holds(Adding(keys, g), gs + [g])
  {
    forall id, key
      ensures Maps(Adding(keys, g), id, key) <==> LastGives(gs + [g], id, key)
    {
      LastGivesExtends(gs, g, id, key);
      assert Maps(keys, id, key) <==> LastGives(gs, id, key);
    }
  }

  /** Every registered key has an id without a colon, a long enough secret, and a scope. */
  ghost predicate WellFormed(keys: Registry) {
    forall id :: id in keys ==> Registrable(id, keys[id])
  }

  /** The first `i` pieces have been read into `keys`. */
  ghost predicate Reading(keys: Registry, pieces: seq<string>, i: nat, space: char -> bool) {
    && i <= |pieces| && WellFormed(keys) && Holds(keys, AllGiven(pieces[..i], space))
    && forall k :: 0 <= k < i ==> Readable(pieces[k], space)
  }

  lemma ReadingStarts(pieces: seq<string>, space: char -> bool)
    ensures Reading(map[], pieces, 0, space)
  {
  }

  lemma ReadingGoesOn(keys: Registry, pieces: seq<string>, i: nat, space: char -> bool)
    requires Reading(keys, pieces, i, space) && i < |pieces| && Readable(pieces[i], space)
    ensures Reading(Adding(keys, Given(pieces[i], space)), pieces, i + 1, space)
  {
    HoldsOn(keys, AllGiven(pieces[..i], space), Given(pieces[i], space));
    assert AllGiven(pieces[..i + 1], space) == AllGiven(pieces[..i], space) + [Given(pieces[i], space)];
  }

  lemma ReadingEnds(keys: Registry, pieces: seq<string>, space: char -> bool)
    requires Reading(keys, pieces, |pieces|, space)
    ensures Holds(keys, AllGiven(pieces, space)) && WellFormed(keys)
    ensures forall piece :: piece in pieces ==> Readable(piece, space)
  {
    assert pieces[..|pieces|] == pieces;
  }

  /** The registry is read exactly when every piece between semicolons is blank
      or an entry, and then holds what the last entry for each id gave. */
  method ParseServiceKeys(raw: string, space: char -> bool) returns (r: Result<Registry>)
    ensures r.Ok? <==> forall piece :: piece in Split(raw, ';') ==> Readable(piece, space)
    ensures r.Ok? ==> Holds(r.value, AllGiven(Split(raw, ';'), space)) && WellFormed(r.value)
    ensures r.Err? ==> r.error == InvalidRequest
  {
    var keys: Registry := map[];
    var pieces := Split(raw, ';');
    var i := 0;
    ReadingStarts(pieces, space);
    while i < |pieces|
      invariant 0 <= i <= |pieces| && Reading(keys, pieces, i, space)
    {
      var entry := Trim(pieces[i], space);
      if entry != "" {
        var parsed := ParseEntry(entry);
        if parsed.Err? {
          assert pieces[i] in pieces && !Readable(pieces[i], space);
          return Err(parsed.error);
        }
        ReadingGoesOn(keys, pieces, i, space);
        keys := keys[parsed.value.0 := parsed.value.1];
      } else {
        ReadingGoesOn(keys, pieces, i, space);
      }
      i := i + 1;
    }
    ReadingEnds(keys, pieces, space);
    r := Ok(keys);
  }

  // ---------- what is signed ----------

  /** A header or path as HTTP delivers it: without a line break. */
  type Line = s: string | '\n' !in s witness ""

  /** Everything the signature covers. The key id is not among it. */
  datatype Message = Message(
    verb: Line,
    path: Line,
    bodyDigest: Line,
    timestamp: Line,
    nonce: Line,
    scope: Line,
    network: Line)

  function Lines(m: Message): (ls: seq<string>)
    ensures |ls| == 7 && forall i :: 0 <= i < |ls| ==> '\n' !in ls[i]
  {
    [m.verb, m.path, m.bodyDigest, m.timestamp, m.nonce, m.scope, m.network]
  }

  function SignedText(m: Message): string {
    Join(Lines(m), '\n')
  }

  /** The signed text tells all seven parts, so a signature fits one message only. */
  lemma SignedTextExact(m: Message, n: Message)
    ensures SignedText(m) == SignedText(n) <==> m == n
  {
    SplitInvertsJoin(Lines(m), '\n');
    SplitInvertsJoin(Lines(n), '\n');
    if SignedText(m) == SignedText(n) {
      var a, b := Lines(m), Lines(n);
      assert a[0] == b[0] && a[1] == b[1] && a[2] == b[2] && a[3] == b[3] && a[4] == b[4] && a[5] == b[5]
          && a[6] == b[6];
    }
  }

  /** The seven parts come in this order, one to a line. */
  lemma SignedTextLayout(m: Message)
    ensures SignedText(m) == m.verb + "\n" + (m.path + "\n" + (m.bodyDigest + "\n" + (m.timestamp + "\n" +
                             (m.nonce + "\n" + (m.scope + "\n" + m.network)))))
  {
    var ps := Lines(m);
    assert ps[1..][1..] == ps[2..] && ps[2..][1..] == ps[3..] && ps[3..][1..] == ps[4..] && ps[4..][1..] == ps[5..]
        && ps[5..][1..] == ps[6..];
    assert Join(ps[6..], '\n') == m.network;
    assert Join(ps[5..], '\n') == m.scope + "\n" + m.network;
    assert Join(ps[4..], '\n') == m.nonce + "\n" + (m.scope + "\n" + m.network);
    assert Join(ps[3..], '\n') == m.timestamp + "\n" + (m.nonce + "\n" + (m.scope + "\n" + m.network));
    assert Join(ps[2..], '\n') == m.bodyDigest + "\n" + Join(ps[3..], '\n');
    assert Join(ps[1..], '\n') == m.path + "\n" + Join(ps[2..], '\n');
  }

  predicate AllDigits(s: string) {
    s != [] && forall i :: 0 <= i < |s| ==> '0' <= s[i] <= '9'
  }

  /** What stands in front of the digits. */
  function SignOf(s: string): (sign: string)
    ensures |sign| <= |s|
  {
    if s != [] && (s[0] == '-' || s[0] == '+') then [s[0]] else ""
  }

  /** An i64 in decimal, with or without a sign. */
  function ReadTimestamp(s: string): Option<int> {
    var sign, digits := SignOf(s), s[|SignOf(s)|..];
    if !AllDigits(digits) then None
    else
      var n: int := if sign == "-" then -(Decimal.Parse(digits) as int) else Decimal.Parse(digits);
      if I64_MIN <= n <= I64_MAX then Some(n) else None
  }

  /** The text is these digits behind this sign, and denotes `n`. */
  predicate Denotes(s: string, sign: string, digits: string, n: int) {
    && s == sign + digits && AllDigits(digits)
    && (sign == "" || sign == "+" || sign == "-")
    && n == if sign == "-" then -(Decimal.Parse(digits) as int) else Decimal.Parse(digits)
  }

  lemma SignIsFirst(s: string, sign: string, digits: string)
    requires s == sign + digits && AllDigits(digits) && (sign == "" || sign == "+" || sign == "-")
    ensures SignOf(s) == sign && s[|SignOf(s)|..] == digits
  {
    assert sign != "" ==> s[0] == sign[0];
    assert sign == "" ==> s[0] == digits[0];
  }

  /** A timestamp is read exactly from decimal digits, with a sign or without,
      that denote a number within i64. */
  lemma ReadTimestampExactly(s: string, n: int)
    ensures ReadTimestamp(s) == Some(n) <==>
            I64_MIN <= n <= I64_MAX && exists sign, digits :: Denotes(s, sign, digits, n)
  {
    var sign, digits := SignOf(s), s[|SignOf(s)|..];
    assert s == sign + digits;
    assert sign == "" || sign == "+" || sign == "-";
    if ReadTimestamp(s) == Some(n) {
      assert Denotes(s, sign, digits, n);
    }
    forall x, y | Denotes(s, x, y, n)
      ensures x == sign && y == digits
    {
      SignIsFirst(s, x, y);
    }
  }

  lemma ReadsNatural(n: nat)
    requires n <= I64_MAX
    ensures ReadTimestamp(Decimal.Natural(n)) == Some(n)
  {
    Decimal.ParseInvertsNatural(n);
    assert '0' <= Decimal.Natural(n)[0] <= '9';
  }

  // ---------- one request ----------

  /** Clock ticks in a second. */
  const TICKS: nat := 1_000_000_000

  type Seconds = n: nat | n <= I64_MAX

  /** `hmacKey` is the block that HMAC makes of a secret (RFC 2104, section 2);
      different secrets can share one. */
  datatype Config = Config(
    keys: Registry,
    hmacKey: seq<nat> -> seq<nat>,
    network: Network,
    skewSecs: Seconds,
    windowSecs: nat)
  {
    function Window(): nat {
      windowSecs * TICKS
    }

    function HmacKeyOf(keyId: string): seq<nat> {
      if keyId in keys then hmacKey(keys[keyId].secret) else []
    }
  }

  /** The decoded signature: the code of some text under some key, other bytes, or not hex at all. */
  datatype Signature = Mac(key: seq<nat>, text: string) | OtherBytes | NotHex

  /** A request with all its headers, and whether its body turns out to fit. */
  datatype Request = Request(keyId: string, message: Message, bodyFits: bool, signature: Signature)

  datatype Verdict =
    | Accepted
    | ScopeMismatch
    | UnknownKey
    | ScopeNotGranted
    | InvalidNetwork
    | NetworkMismatch
    | InvalidTimestamp
    | ClockSkew
    | InvalidNonce
    | BodyTooLarge
    | InvalidSignatureEncoding
    | BadSignature
    | ReplayedNonce

  function ReplayKey(keyId: string, nonce: string): string {
    keyId + ":" + nonce
  }

  /** The checks on the headers: a refusal, or none. */
  function Screen(config: Config, required: Scope, req: Request, now: int): Option<Verdict> {
    var m, timestamp := req.message, ReadTimestamp(req.message.timestamp);
    if m.scope != ScopeName(required) then Some(ScopeMismatch)
    else if req.keyId !in config.keys then Some(UnknownKey)
    else if required !in config.keys[req.keyId].scopes then Some(ScopeNotGranted)
    else if m.network != "mainnet" && m.network != "testnet" then Some(InvalidNetwork)
    else if (if m.network == "mainnet" then Mainnet else Testnet) != config.network then Some(NetworkMismatch)
    else if timestamp.None? then Some(InvalidTimestamp)
    else if !WithinSkew(config, timestamp.value, now) then Some(ClockSkew)
    else if |m.nonce| < 8 || |m.nonce| > 128 then Some(InvalidNonce)
    else None
  }

  predicate WithinSkew(config: Config, timestamp: int, now: int) {
    -(config.skewSecs as int) <= now / TICKS - timestamp <= config.skewSecs
  }

  /** The checks on the headers in the order they are made, each with the
      verdict that stands for its failure. */
  function HeaderChecks(config: Config, required: Scope, req: Request, now: int): seq<(bool, Verdict)> {
    var m, timestamp := req.message, ReadTimestamp(req.message.timestamp);
    [(ParseScope(m.scope) == Some(required), ScopeMismatch),
     (req.keyId in config.keys, UnknownKey),
     (req.keyId in config.keys && required in config.keys[req.keyId].scopes, ScopeNotGranted),
     (m.network in ["mainnet", "testnet"], InvalidNetwork),
     (m.network == (if config.network == Mainnet then "mainnet" else "testnet"), NetworkMismatch),
     (timestamp.Some?, InvalidTimestamp),
     (timestamp.Some? && WithinSkew(config, timestamp.value, now), ClockSkew),
     (8 <= |m.nonce| <= 128, InvalidNonce)]
  }

  /** The place of the first check that fails, or the number of checks. */
  function FirstFailing(checks: seq<(bool, Verdict)>): (i: nat)
    ensures i <= |checks| && (i < |checks| ==> !checks[i].0) && forall k :: 0 <= k < i ==> checks[k].0
  {
    if checks == [] || !checks[0].0 then 0 else 1 + FirstFailing(checks[1..])
  }

  /** A request is refused for the first check that fails. */
  lemma ScreenReportsFirst(config: Config, required: Scope, req: Request, now: int)
    ensures var checks := HeaderChecks(config, required, req, now);
            Screen(config, required, req, now) ==
              if FirstFailing(checks) < |checks| then Some(checks[FirstFailing(checks)].1) else None
  {
    var checks := HeaderChecks(config, required, req, now);
    var i := FirstFailing(checks);
    match i {
      case 0 =>
      case 1 => assert checks[0].0;
      case 2 => assert checks[0].0 && checks[1].0;
      case 3 => assert checks[0].0 && checks[1].0 && checks[2].0;
      case 4 => assert checks[0].0 && checks[1].0 && checks[2].0 && checks[3].0;
      case 5 => assert checks[0].0 && checks[1].0 && checks[2].0 && checks[3].0 && checks[4].0;
      case 6 => assert checks[0].0 && checks[1].0 && checks[2].0 && checks[3].0 && checks[4].0 && checks[5].0;
      case _ =>
        assert checks[0].0 && checks[1].0 && checks[2].0 && checks[3].0 && checks[4].0 && checks[5].0 && checks[6].0;
        assert i > 7 ==> checks[7].0;
    }
  }

  /** The checks on the body and the signature, once the body has arrived. */
  function CheckBody(config: Config, req: Request): Option<Verdict> {
    if !req.bodyFits then Some(BodyTooLarge)
    else if req.signature.NotHex? then Some(InvalidSignatureEncoding)
    else if req.signature != Mac(config.HmacKeyOf(req.keyId), SignedText(req.message)) then Some(BadSignature)
    else None
  }

  /** After the headers a request is refused exactly for its body's size, a
      signature that is not hex, or one that is not its own. */
  lemma BodyVerdicts(config: Config, req: Request)
    ensures var refusal, own := CheckBody(config, req),
                                req.signature == Mac(config.HmacKeyOf(req.keyId), SignedText(req.message));
            && (refusal == Some(BodyTooLarge) <==> !req.bodyFits)
            && (refusal == Some(InvalidSignatureEncoding) <==> req.bodyFits && req.signature == NotHex)
            && (refusal == Some(BadSignature) <==> req.bodyFits && req.signature != NotHex && !own)
            && (refusal == None <==> req.bodyFits && own)
  {
  }

  /** The second half, at later clock readings: body, signature, nonce. */
  function Spend(config: Config, req: Request, entries: Entries, now: int, delay: nat): (Entries, Verdict) {
    var refusal := CheckBody(config, req);
    if refusal.Some? then (entries, refusal.value)
    else
      var key := ReplayKey(req.keyId, req.message.nonce);
      var (entries', seen) := CheckAndSetStep(entries, key, config.Window(), now, delay);
      (entries', if seen then ReplayedNonce else Accepted)
  }

  /** The middleware itself. While it awaits the body, others use the nonce
      store; only an accepted request leaves a trace of its own there. */
  method Authenticate(config: Config, required: Scope, req: Request, nonces: MemoryNonceStore,
                      screenedAt: int, meanwhile: seq<Op>, spentAt: int, delay: nat)
    returns (verdict: Verdict)
    modifies nonces
    ensures var refusal := Screen(config, required, req, screenedAt);
            (nonces.entries, verdict) ==
              if refusal.Some? then (old(nonces.entries), refusal.value)
              else Spend(config, req, AfterOps(old(nonces.entries), config.Window(), meanwhile), spentAt, delay)
    ensures verdict != Accepted ==>
              nonces.entries == if Screen(config, required, req, screenedAt).Some? then old(nonces.entries)
                                else AfterOps(old(nonces.entries), config.Window(), meanwhile)
  {
    var refusal := Screen(config, required, req, screenedAt);
    if refusal.Some? {
      return refusal.value;
    }
    var i := 0;
    while i < |meanwhile|
      invariant 0 <= i <= |meanwhile|
      invariant AfterOps(nonces.entries, config.Window(), meanwhile[i..])
             == AfterOps(old(nonces.entries), config.Window(), meanwhile)
    {
      assert meanwhile[i..][1..] == meanwhile[i + 1..];
      match meanwhile[i] {
        case Check(key, now, wait) => var _ := nonces.CheckAndSet(key, config.Window(), now, wait);
        case Evict(now) => nonces.EvictExpired(config.Window(), now);
      }
      i := i + 1;
    }
    refusal := CheckBody(config, req);
    if refusal.Some? {
      return refusal.value;
    }
    var seen := nonces.CheckAndSet(ReplayKey(req.keyId, req.message.nonce), config.Window(), spentAt, delay);
    verdict := if seen then ReplayedNonce else Accepted;
  }

  /** Distinct (key id, nonce) pairs have distinct replay keys. */
  lemma ReplayKeysDistinct(k: string, n: string, k': string, n': string)
    requires ':' !in k && ':' !in k'
    ensures ReplayKey(k, n) == ReplayKey(k', n') <==> k == k' && n == n'
  {
    JoinInjective(':', k, k', n, n');
  }

  /** Under one nonce, distinct key ids have distinct replay keys, colons or not. */
  lemma ReplayKeysOfIds(k: string, k': string, n: string)
    ensures ReplayKey(k, n) == ReplayKey(k', n) <==> k == k'
  {
    var a, b := ReplayKey(k, n), ReplayKey(k', n);
    if a == b {
      assert |k| == |k'|;
      assert a[..|k|] == k && b[..|k'|] == k';
    }
  }
}
