/**
 * Secrets at rest under a rotating key set.  The authenticated cipher and the hash are parameters;
 * what is proved holds for every ideal one.
 */
module SecretCipher {
  import opened Prelude
  import opened Text

  type Key = string

  /** Hashing key material, sealing under a nonce, and opening; sealed text is already encoded. */
  datatype Crypto = Crypto(hash: string -> Key, seal: (Key, nat, string) -> string, open: (Key, string) -> Option<string>)

  /** Sealed text opens under its own key only, and neither it nor anything that opens contains a colon or is blank. */
  ghost predicate Ideal(cr: Crypto)
  {
    && (forall k, n, p, k' :: cr.open(k', cr.seal(k, n, p)) == if k' == k then Some(p) else None)
    && (forall k, n, p :: var sealed := cr.seal(k, n, p); sealed != "" && Trimmed(sealed))
    && (forall k, text :: cr.open(k, text).Some? ==> ':' !in text)
  }

  lemma SealedText(cr: Crypto, k: Key, n: nat, p: string)
    requires Ideal(cr)
    ensures var sealed := cr.seal(k, n, p); sealed != "" && Trimmed(sealed) && ':' !in sealed
  {
    assert cr.open(k, cr.seal(k, n, p)).Some?;
  }

  const PREFIX := "enc:v1:"
  const DEFAULT_ID := "v1"
  const ROTATED_ID := "current"
  const DEFAULT_MATERIAL := "areyouai-dev-webhook-secret-encryption-key"

  // ---------- ids in order ----------

  predicate Less(a: string, b: string)
  {
    if b == "" then false
    else if a == "" then true
    else a[0] < b[0] || (a[0] == b[0] && Less(a[1..], b[1..]))
  }

  lemma {:induction false} LessIsTotal(a: string, b: string)
    ensures Less(a, b) || a == b || Less(b, a)
    ensures !(Less(a, b) && Less(b, a)) && !Less(a, a)
    decreases |a|
  {
    if a != "" && b != "" {
      LessIsTotal(a[1..], b[1..]);
      LessIsTotal(a[1..], a[1..]);
      if a[0] == b[0] && a[1..] == b[1..] {
        assert a == [a[0]] + a[1..] && b == [b[0]] + b[1..];
      }
    } else if a != "" {
      LessIsTotal(a[1..], a[1..]);
    }
  }

  lemma {:induction false} LessChains(a: string, b: string, c: string)
    requires Less(a, b) && Less(b, c)
    ensures Less(a, c)
  {
    if a != "" && a[0] == b[0] && b[0] == c[0] {
      LessChains(a[1..], b[1..], c[1..]);
    }
  }

  predicate Least(id: string, ids: set<string>)
  {
    id in ids && forall k :: k in ids ==> k == id || Less(id, k)
  }

  lemma {:induction false} LeastExists(ids: set<string>)
    requires ids != {}
    ensures exists id :: Least(id, ids)
    decreases |ids|
  {
    var x :| x in ids;
    if ids == {x} {
      assert Least(x, ids);
    } else {
      var rest := ids - {x};
      assert ids == rest + {x};
      LeastExists(rest);
      var y :| Least(y, rest);
      LessIsTotal(x, y);
      var m := if Less(x, y) then x else y;
      forall k | k in ids ensures k == m || Less(m, k) {
        if m == x && k in rest && k != y {
          LessChains(x, y, k);
        }
      }
      assert Least(m, ids);
    }
  }

  lemma LeastIsUnique(a: string, b: string, ids: set<string>)
    requires Least(a, ids) && Least(b, ids)
    ensures a == b
  {
    LessIsTotal(a, b);
  }

  function LeastOf(ids: set<string>): (id: string)
    requires ids != {}
    ensures Least(id, ids)
  {
    LeastExists(ids);
    assert forall a, b :: Least(a, ids) && Least(b, ids) ==> a == b by {
      forall a, b | Least(a, ids) && Least(b, ids) ensures a == b { LeastIsUnique(a, b, ids); }
    }
    var id :| id in ids && Least(id, ids);
    id
  }

  function Ascending(ids: set<string>): (out: seq<string>)
    ensures forall id :: id in out <==> id in ids
    ensures forall i, j :: 0 <= i < j < |out| ==> Less(out[i], out[j])
    decreases |ids|
  {
    if ids == {} then []
    else
      var id := LeastOf(ids);
      [id] + Ascending(ids - {id})
  }

  // ---------- building the key set ----------

  /** One "id=material" item; anything else is skipped. */
  function ParseItem(item: string): Option<(string, string)>
  {
    var parts := Cut(Trim(item), '=');
    if parts.None? then None
    else
      var (id, material) := (Trim(parts.value.0), Trim(parts.value.1));
      if id == "" || material == "" then None else Some((id, material))
  }

  /** The pieces between the separators; their number is one more than the separators'. */
  function Split(s: string, c: char): seq<string>
    decreases |s|
  {
    CutFindsTheFirst(s, c);
    var parts := Cut(s, c);
    if parts.None? then [s] else [parts.value.0] + Split(parts.value.1, c)
  }

  function JoinWith(pieces: seq<string>, c: char): string
  {
    if pieces == [] then "" else if |pieces| == 1 then pieces[0] else pieces[0] + [c] + JoinWith(pieces[1..], c)
  }

  /** The pieces are what lies between the separators, all of it and in order. */
  lemma {:induction false} SplitIsExact(s: string, c: char)
    ensures Split(s, c) != [] && JoinWith(Split(s, c), c) == s
    ensures forall i :: 0 <= i < |Split(s, c)| ==> c !in Split(s, c)[i]
    decreases |s|
  {
    CutFindsTheFirst(s, c);
    var parts := Cut(s, c);
    if parts.Some? {
      SplitIsExact(parts.value.1, c);
      assert Split(s, c)[1..] == Split(parts.value.1, c);
    }
  }

  /** And no other pieces could have been joined to it. */
  lemma {:induction false} SplitFindsThePieces(pieces: seq<string>, c: char)
    requires pieces != [] && forall i :: 0 <= i < |pieces| ==> c !in pieces[i]
    ensures Split(JoinWith(pieces, c), c) == pieces
  {
    if |pieces| == 1 {
      CutFindsTheFirst(pieces[0], c);
    } else {
      SplitFindsThePieces(pieces[1..], c);
      CutAt(pieces[0], c, JoinWith(pieces[1..], c));
      assert pieces == [pieces[0]] + pieces[1..];
    }
  }

  /** An item counts when it has an equals sign with something on both sides; the first one separates. */
  lemma ItemsAreBindings(item: string, left: string, right: string)
    requires '=' !in left && Trim(item) == left + ['='] + right
    ensures ParseItem(item) == if Trim(left) == "" || Trim(right) == "" then None else Some((Trim(left), Trim(right)))
    ensures forall other :: '=' !in Trim(other) ==> ParseItem(other) == None
  {
    CutAt(left, '=', right);
    forall other | '=' !in Trim(other) ensures ParseItem(other) == None {
      CutFindsTheFirst(Trim(other), '=');
    }
  }

  /** Later items win. */
  function KeysetOf(items: seq<string>): map<string, string>
  {
    if items == [] then map[]
    else
      var before, item := KeysetOf(items[..|items|-1]), ParseItem(items[|items|-1]);
      if item.Some? then before[item.value.0 := item.value.1] else before
  }

  /** The item binds the id, and no later item does. */
  predicate LastBinding(items: seq<string>, i: nat, id: string, material: string)
  {
    && i < |items| && ParseItem(items[i]) == Some((id, material))
    && forall j :: i < j < |items| ==> !Names(items[j], id)
  }

  predicate Names(item: string, id: string)
  {
    ParseItem(item).Some? && ParseItem(item).value.0 == id
  }

  lemma {:induction false} KeysetIsTheLastBinding(items: seq<string>, id: string, material: string)
    ensures (id in KeysetOf(items) && KeysetOf(items)[id] == material) <==> exists i :: LastBinding(items, i, id, material)
  {
    hide ParseItem;
    if items != [] {
      var n := |items| - 1;
      var before := items[..n];
      KeysetIsTheLastBinding(before, id, material);
      if Names(items[n], id) {
        assert forall i: nat :: LastBinding(items, i, id, material) ==> i == n;
        assert ParseItem(items[n]) == Some((id, material)) ==> LastBinding(items, n, id, material);
      } else {
        forall i: nat ensures LastBinding(items, i, id, material) <==> LastBinding(before, i, id, material) {
          assert forall j :: 0 <= j < n ==> before[j] == items[j];
          assert LastBinding(items, i, id, material) ==> i != n;
        }
      }
    }
  }

  /** Ids and materials come out trimmed, and none is blank. */
  lemma {:induction false} KeysetIsTrimmed(items: seq<string>, id: string)
    requires id in KeysetOf(items)
    ensures id != "" && Trimmed(id) && KeysetOf(items)[id] != "" && Trimmed(KeysetOf(items)[id])
  {
    var n := |items| - 1;
    if Names(items[n], id) {
      ParsedItem(items[n]);
    } else {
      KeysetIsTrimmed(items[..n], id);
    }
  }

  method ParseKeyset(raw: string) returns (out: map<string, string>)
    ensures out == KeysetOf(Split(Trim(raw), ','))
  {
    hide ParseItem, Split;
    var items := Split(Trim(raw), ',');
    out := map[];
    for n := 0 to |items|
      invariant out == KeysetOf(items[..n])
    {
      assert items[..n + 1][..n] == items[..n];
      var item := ParseItem(items[n]);
      if item.Some? {
        out := out[item.value.0 := item.value.1];
      }
    }
    assert items[..|items|] == items;
  }

  lemma ParsedItem(item: string)
    requires ParseItem(item).Some?
    ensures var (id, material) := ParseItem(item).value; id != "" && Trimmed(id) && material != "" && Trimmed(material)
  {
    var parts := Cut(Trim(item), '=').value;
    TrimTrims(parts.0);
    TrimTrims(parts.1);
  }

  function Digits(n: nat): string
  {
    var d := "0123456789"[n % 10];
    if n < 10 then [d] else Digits(n / 10) + [d]
  }

  lemma {:induction false} DigitsDiffer(m: nat, n: nat)
    requires Digits(m) == Digits(n)
    ensures m == n
  {
    var a, b := Digits(m), Digits(n);
    assert a[|a|-1] == "0123456789"[m % 10] && b[|b|-1] == "0123456789"[n % 10];
    DigitIsItself(m % 10);
    DigitIsItself(n % 10);
    assert m % 10 == n % 10;
    assert a[..|a|-1] == b[..|b|-1];
    if m >= 10 && n >= 10 {
      assert a[..|a|-1] == Digits(m / 10) && b[..|b|-1] == Digits(n / 10);
      DigitsDiffer(m / 10, n / 10);
    }
  }

  lemma DigitIsItself(d: nat)
    requires d < 10
    ensures "0123456789"[d] as int == '0' as int + d
  {}

  function Candidate(i: nat): string
  {
    if i == 0 then ROTATED_ID else ROTATED_ID + "-" + Digits(i)
  }

  lemma CandidatesDiffer(i: nat, j: nat)
    requires i != j
    ensures Candidate(i) != Candidate(j)
  {
    if Candidate(i) == Candidate(j) {
      var n := |ROTATED_ID + "-"|;
      assert i > 0 ==> Candidate(i)[n..] == Digits(i);
      assert j > 0 ==> Candidate(j)[n..] == Digits(j);
      if i > 0 && j > 0 {
        DigitsDiffer(i, j);
      }
    }
  }

  function Candidates(n: nat): (out: set<string>)
    ensures forall c :: c in out <==> exists i :: 0 <= i < n && c == Candidate(i)
  {
    if n == 0 then {} else Candidates(n - 1) + {Candidate(n - 1)}
  }

  lemma {:induction false} CandidatesCount(n: nat)
    ensures |Candidates(n)| == n
  {
    if n > 0 {
      CandidatesCount(n - 1);
      assert Candidate(n - 1) !in Candidates(n - 1) by {
        forall i | 0 <= i < n - 1 ensures Candidate(i) != Candidate(n - 1) { CandidatesDiffer(i, n - 1); }
      }
    }
  }

  lemma SmallerSet(a: set<string>, b: set<string>)
    requires a <= b
    ensures |a| <= |b|
  {
    assert b == a + (b - a);
  }

  /** The first candidate that is not taken. */
  ghost predicate FirstFree(taken: set<string>, id: string)
  {
    exists i: nat :: id == Candidate(i) && id !in taken && CandidatesTaken(taken, i)
  }

  ghost predicate CandidatesTaken(taken: set<string>, i: nat)
  {
    forall j :: 0 <= j < i ==> Candidate(j) in taken
  }

  /** Pigeonhole: so many candidates are not taken by fewer keys. */
  lemma TakenCandidatesCount(taken: set<string>, n: nat)
    requires CandidatesTaken(taken, n)
    ensures n <= |taken|
  {
    CandidatesCount(n);
    assert Candidates(n) <= taken;
    SmallerSet(Candidates(n), taken);
  }

  lemma OneMoreTaken(taken: set<string>, i: nat)
    requires CandidatesTaken(taken, i) && Candidate(i) in taken
    ensures CandidatesTaken(taken, i + 1)
  {}

  /** The search for an unused id stops after at most as many steps as there are keys, at the first one that is free. */
  method FreshKeyID(keys: map<string, string>) returns (id: string)
    ensures FirstFree(keys.Keys, id)
  {
    hide CandidatesTaken, Candidate;
    var i := 0;
    id := Candidate(0);
    assert CandidatesTaken(keys.Keys, 0) by { NoneTaken(keys.Keys); }
    while id in keys
      invariant id == Candidate(i) && CandidatesTaken(keys.Keys, i)
      invariant i <= |keys|
      decreases |keys| - i
    {
      OneMoreTaken(keys.Keys, i);
      i := i + 1;
      TakenCandidatesCount(keys.Keys, i);
      id := Candidate(i);
    }
  }

  lemma NoneTaken(taken: set<string>)
    ensures CandidatesTaken(taken, 0)
  {}

  // ---------- a cipher ----------

  datatype Cipher = Cipher(primaryKeyID: string, keyByID: map<string, Key>)

  function DecryptKeyIDs(c: Cipher): seq<string>
  {
    (if c.primaryKeyID in c.keyByID then [c.primaryKeyID] else []) + Ascending(c.keyByID.Keys - {c.primaryKeyID})
  }

  /** Which materials ended up under which ids, and which id new values are sealed under. */
  ghost predicate Configured(c: Cipher, cr: Crypto, keyMaterial: string, parsed: map<string, string>)
  {
    var v := Trim(keyMaterial);
    && c.primaryKeyID in c.keyByID
    && (forall id :: id in parsed ==> id in c.keyByID && c.keyByID[id] == cr.hash(parsed[id]))
    && (v != "" ==>
          && c.primaryKeyID !in parsed && c.keyByID[c.primaryKeyID] == cr.hash(v)
          && c.keyByID.Keys == parsed.Keys + {c.primaryKeyID}
          && (if DEFAULT_ID in parsed then FirstFree(parsed.Keys, c.primaryKeyID) else c.primaryKeyID == DEFAULT_ID))
    && (v == "" && parsed == map[] ==> c == Cipher(DEFAULT_ID, map[DEFAULT_ID := cr.hash(DEFAULT_MATERIAL)]))
    && (v == "" && parsed != map[] ==>
          && c.keyByID.Keys == parsed.Keys
          && c.primaryKeyID == if DEFAULT_ID in parsed then DEFAULT_ID else LeastOf(parsed.Keys))
  }

  method NewWithKeyset(cr: Crypto, keyMaterial: string, parsed: map<string, string>) returns (c: Cipher)
    ensures Configured(c, cr, keyMaterial, parsed)
  {
    var keys, primary := parsed, "";
    var v := Trim(keyMaterial);
    if v != "" {
      if DEFAULT_ID in keys {
        primary := FreshKeyID(keys);
      } else {
        primary := DEFAULT_ID;
      }
      keys := keys[primary := v];
    }
    if keys == map[] {
      keys := map[DEFAULT_ID := DEFAULT_MATERIAL];
    }
    if v == "" {
      primary := DEFAULT_ID;
      if primary !in keys {
        var ordered := Ascending(keys.Keys);
        primary := ordered[0];
      }
    }
    var keyByID := map id | id in keys :: cr.hash(keys[id]);
    c := Cipher(primary, keyByID);
  }

  function Encrypt(cr: Crypto, c: Cipher, nonce: nat, plaintext: string): Option<string>
  {
    if c.primaryKeyID !in c.keyByID then None
    else Some(PREFIX + c.primaryKeyID + ":" + cr.seal(c.keyByID[c.primaryKeyID], nonce, plaintext))
  }

  function SplitKeyedPayload(payload: string): Option<(string, string)>
  {
    var parts := Cut(payload, ':');
    if parts.None? then None
    else
      var (id, encoded) := (Trim(parts.value.0), Trim(parts.value.1));
      if id == "" || encoded == "" then None else Some((id, encoded))
  }

  /** The first of these keys that opens the text. */
  function TryKeys(cr: Crypto, c: Cipher, ids: seq<string>, text: string): Option<string>
  {
    if ids == [] then None
    else if ids[0] in c.keyByID && cr.open(c.keyByID[ids[0]], text).Some? then cr.open(c.keyByID[ids[0]], text)
    else TryKeys(cr, c, ids[1..], text)
  }

  /** The named key first, then all of them in order. */
  function Decrypt(cr: Crypto, c: Cipher, ciphertext: string): Option<string>
  {
    var text := Trim(ciphertext);
    if text == "" then None
    else if !StartsWith(text, PREFIX) then Some(text)
    else
      var payload := text[|PREFIX|..];
      if payload == "" then None
      else
        var keyed := SplitKeyedPayload(payload);
        if keyed.Some? then TryKeys(cr, c, [keyed.value.0] + DecryptKeyIDs(c), keyed.value.1)
        else TryKeys(cr, c, DecryptKeyIDs(c), payload)
  }

  method TryKeysInTurn(cr: Crypto, c: Cipher, ids: seq<string>, text: string) returns (plain: Option<string>)
    ensures plain == TryKeys(cr, c, ids, text)
  {
    for i := 0 to |ids|
      invariant TryKeys(cr, c, ids[i..], text) == TryKeys(cr, c, ids, text)
    {
      if ids[i] in c.keyByID {
        plain := cr.open(c.keyByID[ids[i]], text);
        if plain.Some? {
          return;
        }
      }
    }
    plain := None;
  }

  method DecryptValue(cr: Crypto, c: Cipher, ciphertext: string) returns (plain: Option<string>)
    ensures plain == Decrypt(cr, c, ciphertext)
  {
    var text := Trim(ciphertext);
    if text == "" {
      return None;
    }
    if !StartsWith(text, PREFIX) {
      return Some(text);
    }
    var payload := text[|PREFIX|..];
    if payload == "" {
      return None;
    }
    var keyed := SplitKeyedPayload(payload);
    if keyed.Some? {
      plain := TryKeysInTurn(cr, c, [keyed.value.0] + DecryptKeyIDs(c), keyed.value.1);
    } else {
      plain := TryKeysInTurn(cr, c, DecryptKeyIDs(c), payload);
    }
  }

  // ---------- rotation ----------

  /** A key the cipher has, under any id. */
  ghost predicate HasKey(c: Cipher, k: Key)
  {
    exists id :: id in c.keyByID && c.keyByID[id] == k
  }

  lemma {:induction false} TryKeysOpens(cr: Crypto, c: Cipher, ids: seq<string>, k: Key, n: nat, p: string)
    requires Ideal(cr)
    ensures TryKeys(cr, c, ids, cr.seal(k, n, p))
         == if exists i :: 0 <= i < |ids| && ids[i] in c.keyByID && c.keyByID[ids[i]] == k then Some(p) else None
  {
    if ids != [] {
      TryKeysOpens(cr, c, ids[1..], k, n, p);
      assert forall i :: 0 < i < |ids| ==> ids[i] == ids[1..][i - 1];
    }
  }

  lemma {:induction false} TryKeysFails(cr: Crypto, c: Cipher, ids: seq<string>, text: string)
    requires Ideal(cr) && ':' in text
    ensures TryKeys(cr, c, ids, text) == None
  {
    if ids != [] {
      TryKeysFails(cr, c, ids[1..], text);
    }
  }

  lemma EveryKeyIsTried(c: Cipher, k: Key, first: seq<string>)
    requires HasKey(c, k)
    ensures var ids := first + DecryptKeyIDs(c); exists i :: 0 <= i < |ids| && ids[i] in c.keyByID && c.keyByID[ids[i]] == k
  {
    var id :| id in c.keyByID && c.keyByID[id] == k;
    var order := DecryptKeyIDs(c);
    assert id in order;
    var i :| 0 <= i < |order| && order[i] == id;
    assert (first + order)[|first| + i] == id;
  }

  /** The text of an encrypted value, once its surroundings are peeled off. */
  lemma PayloadOf(payload: string)
    requires payload != "" && Trimmed(payload)
    ensures var text := PREFIX + payload; Trim(text) == text && text != "" && StartsWith(text, PREFIX) && text[|PREFIX|..] == payload
  {
    var text := PREFIX + payload;
    assert text[0] == 'e' && text[|text|-1] == payload[|payload|-1];
    TrimTrims(text);
  }

  /** A value sealed under a colon-free id opens under any cipher that has its key, whatever id it is listed under there. */
  lemma KeyedValuesSurviveRotation(cr: Crypto, writer: Cipher, reader: Cipher, nonce: nat, p: string)
    requires Ideal(cr)
    requires writer.primaryKeyID in writer.keyByID && writer.primaryKeyID != "" && Trimmed(writer.primaryKeyID) && ':' !in writer.primaryKeyID
    requires HasKey(reader, writer.keyByID[writer.primaryKeyID])
    ensures Encrypt(cr, writer, nonce, p).Some? && Decrypt(cr, reader, Encrypt(cr, writer, nonce, p).value) == Some(p)
  {
    hide Ideal, TryKeys, DecryptKeyIDs, HasKey;
    var id := writer.primaryKeyID;
    var k := writer.keyByID[id];
    var sealed := cr.seal(k, nonce, p);
    SealedText(cr, k, nonce, p);
    var payload := id + [':'] + sealed;
    assert Encrypt(cr, writer, nonce, p).value == PREFIX + payload;
    assert payload[0] == id[0] && payload[|payload|-1] == sealed[|sealed|-1];
    PayloadOf(payload);
    CutAt(id, ':', sealed);
    TrimTrims(id);
    TrimTrims(sealed);
    assert SplitKeyedPayload(payload) == Some((id, sealed));
    EveryKeyIsTried(reader, k, [id]);
    TryKeysOpens(cr, reader, [id] + DecryptKeyIDs(reader), k, nonce, p);
  }

  /** So does a value in the older layout, without an id. */
  lemma LegacyValuesSurviveRotation(cr: Crypto, c: Cipher, k: Key, nonce: nat, p: string)
    requires Ideal(cr) && HasKey(c, k)
    ensures Decrypt(cr, c, PREFIX + cr.seal(k, nonce, p)) == Some(p)
  {
    hide Ideal, TryKeys, DecryptKeyIDs, HasKey;
    var sealed := cr.seal(k, nonce, p);
    SealedText(cr, k, nonce, p);
    PayloadOf(sealed);
    CutFindsTheFirst(sealed, ':');
    EveryKeyIsTried(c, k, []);
    assert [] + DecryptKeyIDs(c) == DecryptKeyIDs(c);
    TryKeysOpens(cr, c, DecryptKeyIDs(c), k, nonce, p);
  }

  lemma TrimmedEnds(id: string, sealed: string)
    requires id != "" && sealed != "" && Trimmed(id) && Trimmed(sealed)
    ensures Trimmed(id + [':'] + sealed)
  {
    var s := id + [':'] + sealed;
    assert s[0] == id[0] && s[|s|-1] == sealed[|sealed|-1];
  }

  /** With a colon in the id nothing opens the value again. */
  lemma ColonsLoseValues(cr: Crypto, writer: Cipher, reader: Cipher, nonce: nat, p: string)
    requires Ideal(cr)
    requires writer.primaryKeyID in writer.keyByID && Trimmed(writer.primaryKeyID) && ':' in writer.primaryKeyID
    ensures Decrypt(cr, reader, Encrypt(cr, writer, nonce, p).value) == None
  {
    hide Ideal, TryKeys, DecryptKeyIDs, Trim, Cut, StartsWith, Trimmed;
    var id := writer.primaryKeyID;
    var sealed := cr.seal(writer.keyByID[id], nonce, p);
    SealedText(cr, writer.keyByID[id], nonce, p);
    var payload := id + [':'] + sealed;
    assert Encrypt(cr, writer, nonce, p).value == PREFIX + payload;
    assert Trimmed(payload) by { TrimmedEnds(id, sealed); }
    PayloadOf(payload);
    CutFindsTheFirst(id, ':');
    var (a, b) := Cut(id, ':').value;
    var encoded := b + [':'] + sealed;
    assert payload == a + [':'] + encoded;
    CutAt(a, ':', encoded);
    ColonStays(b, sealed);
    TryKeysFails(cr, reader, [Trim(a)] + DecryptKeyIDs(reader), Trim(encoded));
    assert payload[|a|] == ':';
    TryKeysFails(cr, reader, DecryptKeyIDs(reader), payload);
  }

  lemma {:induction false} ColonStays(b: string, sealed: string)
    ensures ':' in Trim(b + [':'] + sealed)
    decreases |b| + |sealed|
  {
    var s := b + [':'] + sealed;
    assert s[|b|] == ':';
    if Space(s[0]) {
      assert b != "" && s[1..] == b[1..] + [':'] + sealed;
      ColonStays(b[1..], sealed);
    } else if Space(s[|s|-1]) {
      assert sealed != "" && s[..|s|-1] == b + [':'] + sealed[..|sealed|-1];
      ColonStays(b, sealed[..|sealed|-1]);
    }
  }

  /** Exactly when a cipher can read back what it writes. */
  lemma RoundTripIffNoColon(cr: Crypto, c: Cipher, nonce: nat, p: string)
    requires Ideal(cr) && c.primaryKeyID in c.keyByID && c.primaryKeyID != "" && Trimmed(c.primaryKeyID)
    ensures Decrypt(cr, c, Encrypt(cr, c, nonce, p).value) == Some(p) <==> ':' !in c.primaryKeyID
  {
    hide Ideal, Decrypt;
    if ':' in c.primaryKeyID {
      ColonsLoseValues(cr, c, c, nonce, p);
    } else {
      assert HasKey(c, c.keyByID[c.primaryKeyID]);
      KeyedValuesSurviveRotation(cr, c, c, nonce, p);
    }
  }

  lemma {:induction false} DigitsAreDigits(n: nat)
    ensures Digits(n) != "" && forall i :: 0 <= i < |Digits(n)| ==> '0' <= Digits(n)[i] <= '9'
  {
    DigitIsItself(n % 10);
    if n >= 10 {
      DigitsAreDigits(n / 10);
    }
  }

  lemma CandidatesAreCleanIds(i: nat)
    ensures Candidate(i) != "" && Trimmed(Candidate(i)) && ':' !in Candidate(i)
  {
    if i > 0 {
      DigitsAreDigits(i);
    }
  }

  /** A deployment with key material of its own never picks an id with a colon. */
  lemma OwnMaterialMeansCleanId(cr: Crypto, c: Cipher, keyMaterial: string, parsed: map<string, string>)
    requires Configured(c, cr, keyMaterial, parsed) && Trim(keyMaterial) != ""
    ensures c.primaryKeyID != "" && Trimmed(c.primaryKeyID) && ':' !in c.primaryKeyID
  {
    if DEFAULT_ID in parsed {
      var i: nat :| c.primaryKeyID == Candidate(i) && c.primaryKeyID !in parsed.Keys && CandidatesTaken(parsed.Keys, i);
      CandidatesAreCleanIds(i);
    }
  }

  /** New values are sealed under "v1", or with material of its own beside a key set that has one under an id that begins with "current", or under the least id of a key set. */
  lemma PrimaryIds(cr: Crypto, c: Cipher, keyMaterial: string, parsed: map<string, string>)
    requires Configured(c, cr, keyMaterial, parsed)
    ensures Trim(keyMaterial) != "" && "v1" !in parsed ==> c.primaryKeyID == "v1"
    ensures Trim(keyMaterial) != "" && "v1" in parsed ==> StartsWith(c.primaryKeyID, "current") && ("current" !in parsed ==> c.primaryKeyID == "current")
    ensures Trim(keyMaterial) == "" && (parsed == map[] || "v1" in parsed) ==> c.primaryKeyID == "v1"
    ensures Trim(keyMaterial) == "" && parsed != map[] && "v1" !in parsed ==> Least(c.primaryKeyID, parsed.Keys)
  {
    if Trim(keyMaterial) != "" && "v1" in parsed {
      var i: nat :| c.primaryKeyID == Candidate(i) && c.primaryKeyID !in parsed.Keys && CandidatesTaken(parsed.Keys, i);
      assert Candidate(0) == "current";
      if i > 0 {
        assert Candidate(0) in parsed.Keys;
        assert Candidate(i)[..7] == "current";
      }
    }
  }

  /** The layout on disk: a fixed prefix, the id, a colon, and the sealed text. */
  lemma SealedLayout(cr: Crypto, c: Cipher, nonce: nat, p: string)
    requires c.primaryKeyID in c.keyByID
    ensures Encrypt(cr, c, nonce, p) == Some("enc:v1:" + c.primaryKeyID + ":" + cr.seal(c.keyByID[c.primaryKeyID], nonce, p))
  {}

  /** The material new values are sealed with. */
  function PrimaryMaterial(keyMaterial: string, parsed: map<string, string>): string
  {
    if Trim(keyMaterial) != "" then Trim(keyMaterial)
    else if parsed == map[] then DEFAULT_MATERIAL
    else parsed[if DEFAULT_ID in parsed then DEFAULT_ID else LeastOf(parsed.Keys)]
  }

  lemma PrimaryIsSealedWith(cr: Crypto, c: Cipher, keyMaterial: string, parsed: map<string, string>)
    requires Configured(c, cr, keyMaterial, parsed)
    ensures c.primaryKeyID in c.keyByID && c.keyByID[c.primaryKeyID] == cr.hash(PrimaryMaterial(keyMaterial, parsed))
  {}

  /** Ids of a parsed key set are trimmed and not blank, and so is the primary id of any cipher built from one. */
  lemma PrimaryIdIsTrimmed(cr: Crypto, c: Cipher, keyMaterial: string, items: seq<string>)
    requires Configured(c, cr, keyMaterial, KeysetOf(items))
    ensures c.primaryKeyID != "" && Trimmed(c.primaryKeyID)
  {
    if Trim(keyMaterial) != "" {
      OwnMaterialMeansCleanId(cr, c, keyMaterial, KeysetOf(items));
    } else if c.primaryKeyID in KeysetOf(items) {
      KeysetIsTrimmed(items, c.primaryKeyID);
    }
  }

  /**
   * Rotating keys: whatever the writer was configured with, a value it sealed opens wherever its
   * material is in the key set under any id, or is the material in use, if and only if its primary id
   * has no colon; in the layout without an id it always opens.
   */
  lemma RotationKeepsSecretsIff(cr: Crypto, oldMaterial: string, oldItems: seq<string>, writer: Cipher,
                                newMaterial: string, newItems: seq<string>, reader: Cipher, nonce: nat, p: string)
    requires Ideal(cr)
    requires Configured(writer, cr, oldMaterial, KeysetOf(oldItems)) && Configured(reader, cr, newMaterial, KeysetOf(newItems))
    requires var m := PrimaryMaterial(oldMaterial, KeysetOf(oldItems));
             m in KeysetOf(newItems).Values || m == PrimaryMaterial(newMaterial, KeysetOf(newItems))
    ensures Encrypt(cr, writer, nonce, p).Some?
    ensures Decrypt(cr, reader, Encrypt(cr, writer, nonce, p).value) == Some(p) <==> ':' !in writer.primaryKeyID
    ensures Decrypt(cr, reader, PREFIX + cr.seal(cr.hash(PrimaryMaterial(oldMaterial, KeysetOf(oldItems))), nonce, p)) == Some(p)
  {
    hide Ideal, Decrypt, FirstFree, KeysetOf, PrimaryMaterial;
    var m, newSet := PrimaryMaterial(oldMaterial, KeysetOf(oldItems)), KeysetOf(newItems);
    PrimaryIsSealedWith(cr, writer, oldMaterial, KeysetOf(oldItems));
    PrimaryIsSealedWith(cr, reader, newMaterial, newSet);
    PrimaryIdIsTrimmed(cr, writer, oldMaterial, oldItems);
    assert HasKey(reader, cr.hash(m)) by {
      if m in newSet.Values {
        var id :| id in newSet && newSet[id] == m;
        assert reader.keyByID[id] == cr.hash(m);
      }
    }
    hide Configured;
    if ':' in writer.primaryKeyID {
      ColonsLoseValues(cr, writer, reader, nonce, p);
    } else {
      KeyedValuesSurviveRotation(cr, writer, reader, nonce, p);
    }
    LegacyValuesSurviveRotation(cr, reader, cr.hash(m), nonce, p);
  }

  /** The key set "a:b=m" on its own makes "a:b" the primary id, and nothing it seals can be read back. */
  lemma ColonIdCanBeConfigured(cr: Crypto, c: Cipher, nonce: nat, p: string)
    requires Ideal(cr) && Configured(c, cr, "", KeysetOf(Split(Trim("a:b=m"), ',')))
    ensures c.primaryKeyID == "a:b" && Decrypt(cr, c, Encrypt(cr, c, nonce, p).value) == None
  {
    hide Ideal, Decrypt, Encrypt;
    ColonKeyset();
    var ids := map["a:b" := "m"].Keys;
    assert ids == {"a:b"};
    assert Trim("") == "" && DEFAULT_ID != "a:b";
    assert c.primaryKeyID in c.keyByID;
    assert c.primaryKeyID[1] == ':';
    ColonsLoseValues(cr, c, c, nonce, p);
  }

  lemma ColonKeyset()
    ensures KeysetOf(Split(Trim("a:b=m"), ',')) == map["a:b" := "m"]
  {
    var s := "a:b=m";
    TrimTrims(s);
    CutFindsTheFirst(s, ',');
    assert Split(s, ',') == [s];
    assert s == "a:b" + ['='] + "m";
    CutAt("a:b", '=', "m");
    TrimTrims("a:b");
    TrimTrims("m");
    assert ParseItem(s) == Some(("a:b", "m"));
    assert [s][..0] == [];
  }

  /** Values stored before encryption was introduced are read as they are. */
  lemma PlainValuesPassThrough(cr: Crypto, c: Cipher, value: string)
    requires value != "" && Trimmed(value) && !StartsWith(value, PREFIX)
    ensures Decrypt(cr, c, value) == Some(value)
  {
    TrimTrims(value);
  }

  /** Nothing, or a prefix with nothing behind it, is no value. */
  lemma BlankValuesAreRefused(cr: Crypto, c: Cipher, value: string)
    requires Trim(value) == "" || Trim(value) == PREFIX
    ensures Decrypt(cr, c, value) == None
  {}

  // ---------- ideal ciphers exist ----------

  function Tally(n: nat): string { if n == 0 then "b" else "a" + Tally(n - 1) }

  function Spell(s: string): string { if s == "" then "c" else Tally(s[0] as int) + Spell(s[1..]) }

  lemma {:induction false} TallyReadsBack(m: nat, n: nat, x: string, y: string)
    requires Tally(m) + x == Tally(n) + y
    ensures m == n && x == y
  {
    var a, b := Tally(m) + x, Tally(n) + y;
    assert a[0] == b[0];
    if m > 0 && n > 0 {
      assert a[1..] == Tally(m - 1) + x && b[1..] == Tally(n - 1) + y;
      TallyReadsBack(m - 1, n - 1, x, y);
    } else {
      assert a[1..] == x && b[1..] == y;
    }
  }

  lemma {:induction false} SpellReadsBack(s: string, t: string, x: string, y: string)
    requires Spell(s) + x == Spell(t) + y
    ensures s == t && x == y
  {
    var a, b := Spell(s) + x, Spell(t) + y;
    assert a[0] == b[0];
    if s == "" || t == "" {
      assert s == "" && t == "";
      assert a[1..] == x && b[1..] == y;
    } else {
      assert a == Tally(s[0] as int) + (Spell(s[1..]) + x) && b == Tally(t[0] as int) + (Spell(t[1..]) + y);
      TallyReadsBack(s[0] as int, t[0] as int, Spell(s[1..]) + x, Spell(t[1..]) + y);
      SpellReadsBack(s[1..], t[1..], x, y);
      assert s == [s[0]] + s[1..] && t == [t[0]] + t[1..];
    }
  }

  lemma {:induction false} TallyUses(n: nat)
    ensures forall c :: c in Tally(n) ==> c == 'a' || c == 'b'
  {
    if n > 0 {
      TallyUses(n - 1);
    }
  }

  lemma {:induction false} SpellUses(s: string)
    ensures Spell(s) != "" && forall c :: c in Spell(s) ==> c == 'a' || c == 'b' || c == 'c'
  {
    if s != "" {
      TallyUses(s[0] as int);
      SpellUses(s[1..]);
    }
  }

  ghost function Unspell(k: Key, text: string): Option<string>
  {
    if exists p :: text == Spell(k) + Spell(p) then
      var p :| text == Spell(k) + Spell(p);
      Some(p)
    else None
  }

  /** What is assumed of the cipher can be met. */
  lemma IdealExists() returns (cr: Crypto)
    ensures Ideal(cr)
  {
    cr := Crypto(s => s, (k, n, p) => Spell(k) + Spell(p), (k, text) => Unspell(k, text));
    forall k, n, p, k' ensures cr.open(k', cr.seal(k, n, p)) == if k' == k then Some(p) else None {
      forall q | Spell(k) + Spell(p) == Spell(k') + Spell(q) ensures k == k' && p == q {
        SpellReadsBack(k, k', Spell(p), Spell(q));
        assert Spell(p) + "" == Spell(q) + "";
        SpellReadsBack(p, q, "", "");
      }
    }
    forall k, n, p ensures cr.seal(k, n, p) != "" && Trimmed(cr.seal(k, n, p)) {
      SpellUses(k);
      SpellUses(p);
      var text := Spell(k) + Spell(p);
      assert text[0] in Spell(k) && text[|text|-1] in Spell(p);
    }
    forall k, text | cr.open(k, text).Some? ensures ':' !in text {
      var p :| text == Spell(k) + Spell(p);
      SpellUses(k);
      SpellUses(p);
    }
  }
}
