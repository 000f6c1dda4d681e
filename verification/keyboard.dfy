/** KeyboardController: key identifiers, the order of a combination, and shortcuts
    (packages/input-provider/src/keyboard.ts, controllers/KeyboardController.ts). */
module Keyboard {
  import opened Common

  datatype KeyId = KeyId(name: string)

  // ---------------------------------------------------------------- key identifiers

  const MEDIA_KEYS: seq<string> := ["volumeUp", "volumeDown", "mute", "playPause", "prevTrack", "nextTrack"]

  const MODIFIER_KEYS: seq<string> := [
    "ControlLeft", "ControlRight", "ShiftLeft", "ShiftRight", "AltLeft", "AltRight", "MetaLeft", "MetaRight"]

  const LAYOUT_KEYS: seq<string> := [
    "Space", "Tab", "Backspace", "Enter", "Escape", "Delete", "Insert", "Home", "End", "PageUp", "PageDown",
    "CapsLock", "Pause", "PrintScreen", "Backquote", "Minus", "Equal", "BracketLeft", "BracketRight",
    "Backslash", "Semicolon", "Quote", "Comma", "Period", "Slash", "NumPad0", "NumPad1", "NumPad2", "NumPad3",
    "NumPad4", "NumPad5", "NumPad6", "NumPad7", "NumPad8", "NumPad9", "NumLock"]

  const ARROW_KEYS: seq<string> := ["ArrowUp", "ArrowDown", "ArrowLeft", "ArrowRight"]

  predicate IsLetter(c: char) { 'a' <= c <= 'z' || 'A' <= c <= 'Z' }

  predicate IsDigit(c: char) { '0' <= c <= '9' }

  function Upper(c: char): char { if 'a' <= c <= 'z' then (c as int - 32) as char else c }

  predicate IsKeyLetter(v: string) { |v| == 4 && v[0] == 'K' && v[1] == 'e' && v[2] == 'y' && IsLetter(v[3]) }

  predicate IsFunctionKey(v: string) {
    && |v| >= 2 && v[0] == 'F'
    && ((|v| == 2 && '1' <= v[1] <= '9') ||
        (|v| == 3 && ((v[1] == '1' && IsDigit(v[2])) || (v[1] == '2' && '0' <= v[2] <= '4'))))
  }

  predicate IsMediaKey(v: string) { v in MEDIA_KEYS }

  predicate IsModifierKey(v: string) { v in MODIFIER_KEYS }

  predicate IsLayoutKey(v: string) { v in LAYOUT_KEYS }

  predicate IsArrowKey(v: string) { v in ARROW_KEYS }

  /** `value` is None for anything that is not a string; so is the result of a refusal. */
  function Normalize(value: Option<string>): Option<KeyId> {
    if value.None? || value.value == "" then None
    else
      var v := value.value;
      if IsMediaKey(v) || IsModifierKey(v) then Some(KeyId(v))
      else if |v| == 1 && IsLetter(v[0]) then Some(KeyId([Upper(v[0])]))
      else if IsKeyLetter(v) then Some(KeyId(['K', 'e', 'y', Upper(v[3])]))
      else if (|v| == 1 && IsDigit(v[0])) || IsLayoutKey(v) || IsFunctionKey(v) || IsArrowKey(v) then Some(KeyId(v))
      else None
  }

  /** A normalised identifier is legal and already normal, differs from what was given at most
      in the case of its last letter, and does not depend on that case. */
  lemma NormalizeSettles(v: string)
    ensures var k := Normalize(Some(v)); k.Some? ==> Normalize(Some(k.value.name)) == k
    ensures var k, n := Normalize(Some(v)), |v| - 1;
            k.Some? ==>
              && |k.value.name| == |v| && k.value.name[..n] == v[..n]
              && Upper(k.value.name[n]) == Upper(v[n])
    ensures |v| == 1 && IsLetter(v[0]) ==> Normalize(Some(v)) == Normalize(Some([Upper(v[0])]))
  {
    LongNames(v);
    if |v| == 1 { LongNames([Upper(v[0])]); }
    hide IsMediaKey, IsModifierKey, IsLayoutKey, IsArrowKey;
  }

  /** No listed name is a single character. */
  lemma LongNames(v: string)
    ensures |v| <= 1 ==> !IsMediaKey(v) && !IsModifierKey(v)
  {
  }

  function Digit(d: nat): char
    requires d < 10
  {
    (d + 48) as char
  }

  function Decimal(n: nat): string
    requires n < 100
  {
    if n < 10 then [Digit(n)] else [Digit(n / 10), Digit(n % 10)]
  }

  /** The legal identifiers: the listed names, one letter or digit, Key and a letter, and F1 to F24. */
  ghost predicate Legal(v: string) {
    || IsMediaKey(v) || IsModifierKey(v) || IsLayoutKey(v) || IsArrowKey(v)
    || (exists c :: v == [c] && (IsLetter(c) || IsDigit(c)))
    || (exists c :: v == "Key" + [c] && IsLetter(c))
    || (exists n :: 1 <= n <= 24 && v == "F" + Decimal(n))
  }

  lemma FunctionKeyExactly(v: string)
    ensures IsFunctionKey(v) <==> exists n :: 1 <= n <= 24 && v == "F" + Decimal(n)
  {
    if IsFunctionKey(v) {
      var n := if |v| == 2 then v[1] as int - 48 else 10 * (v[1] as int - 48) + (v[2] as int - 48);
      assert v == "F" + Decimal(n);
    }
  }

  lemma OneCharacterExactly(v: string)
    ensures |v| == 1 && (IsLetter(v[0]) || IsDigit(v[0])) <==> exists c :: v == [c] && (IsLetter(c) || IsDigit(c))
  {
    if |v| == 1 { assert v == [v[0]]; }
  }

  lemma KeyLetterExactly(v: string)
    ensures IsKeyLetter(v) <==> exists c :: v == "Key" + [c] && IsLetter(c)
  {
    if IsKeyLetter(v) { assert v == "Key" + [v[3]]; }
  }

  /** A string is accepted if and only if it is a legal identifier. */
  lemma LegalExactly(v: string)
    ensures Normalize(Some(v)).Some? <==> Legal(v)
  {
    hide IsLetter, IsDigit, IsKeyLetter, IsFunctionKey, Decimal;
    OneCharacterExactly(v);
    KeyLetterExactly(v);
    FunctionKeyExactly(v);
    NothingIsNotLegal();
    hide IsMediaKey, IsModifierKey, IsLayoutKey, IsArrowKey;
  }

  lemma NothingIsNotLegal()
    ensures !Legal("")
  {
    NothingIsListed();
    NothingIsLayout();
    hide IsMediaKey, IsModifierKey, IsLayoutKey, IsArrowKey;
  }

  lemma NothingIsListed()
    ensures !IsMediaKey("") && !IsModifierKey("") && !IsArrowKey("")
  {
  }

  lemma NothingIsLayout()
    ensures !IsLayoutKey("")
  {
  }

  /** A single letter, and the letter after Key, come out in upper case. */
  lemma LettersAreUpper(c: char)
    requires IsLetter(c)
    ensures Normalize(Some([c])) == Some(KeyId([Upper(c)]))
    ensures Normalize(Some("Key" + [c])) == Some(KeyId("Key" + [Upper(c)]))
    ensures 'A' <= Upper(c) <= 'Z'
  {
    LongNames([c]);
    KeyNames(c);
    hide IsMediaKey, IsModifierKey, IsLayoutKey, IsArrowKey;
    assert "Key" + [Upper(c)] == ['K', 'e', 'y', Upper(c)];
  }

  lemma KeyNames(c: char)
    ensures !IsMediaKey("Key" + [c]) && !IsModifierKey("Key" + [c])
  {
    var v := "Key" + [c];
    assert v[0] == 'K';
  }

  // ---------------------------------------------------------------- the order of a combination

  function IndexOf(keys: seq<string>, k: string): (i: int)
    ensures -1 <= i < |keys| && (i >= 0 ==> keys[i] == k) && (i == -1 <==> k !in keys)
  {
    if keys == [] then -1
    else if keys[0] == k then 0
    else
      var i := IndexOf(keys[1..], k);
      assert k in keys <==> k in keys[1..];
      if i == -1 then -1 else i + 1
  }

  predicate IsModifier(k: KeyId) { IsModifierKey(k.name) }

  /** `localeCompare` of whatever locale the host has. */
  type Collate = (string, string) -> int

  /** All that a collation promises: it is a total preorder. */
  ghost predicate Collation(collate: Collate) {
    && (forall a, b :: collate(a, b) < 0 <==> collate(b, a) > 0)
    && (forall a, b, c :: collate(a, b) <= 0 && collate(b, c) <= 0 ==> collate(a, c) <= 0)
  }

  function KeyOrder(collate: Collate, a: KeyId, b: KeyId): int {
    var ai, bi := IndexOf(MODIFIER_KEYS, a.name), IndexOf(MODIFIER_KEYS, b.name);
    if ai != -1 && bi != -1 then ai - bi
    else if ai != -1 then -1
    else if bi != -1 then 1
    else collate(a.name, b.name)
  }

  /** `keyOrder` is a total preorder in which every modifier comes strictly before every other
      key, two modifiers tie only if they are the same, and the collation orders the rest. */
  lemma KeyOrderLaws(collate: Collate, a: KeyId, b: KeyId, c: KeyId)
    requires Collation(collate)
    ensures KeyOrder(collate, a, b) < 0 <==> KeyOrder(collate, b, a) > 0
    ensures KeyOrder(collate, a, b) <= 0 && KeyOrder(collate, b, c) <= 0 ==> KeyOrder(collate, a, c) <= 0
    ensures IsModifier(a) && !IsModifier(b) ==> KeyOrder(collate, a, b) < 0
    ensures IsModifier(a) && KeyOrder(collate, a, b) == 0 ==> a == b
    ensures !IsModifier(a) && !IsModifier(b) ==> KeyOrder(collate, a, b) == collate(a.name, b.name)
  {
    assert IsModifier(a) <==> IndexOf(MODIFIER_KEYS, a.name) != -1;
    assert IsModifier(b) <==> IndexOf(MODIFIER_KEYS, b.name) != -1;
    hide IndexOf;
  }

  lemma {:induction false} IndexOfDistinct(keys: seq<string>, i: nat)
    requires i < |keys| && forall j, k :: 0 <= j < k < |keys| ==> keys[j] != keys[k]
    ensures IndexOf(keys, keys[i]) == i
  {
    if i > 0 {
      assert keys[0] != keys[i];
      IndexOfDistinct(keys[1..], i - 1);
    }
  }

  lemma ModifiersDiffer()
    ensures forall j, k :: 0 <= j < k < |MODIFIER_KEYS| ==> MODIFIER_KEYS[j] != MODIFIER_KEYS[k]
  {
  }

  /** Modifiers come in the order in which they are listed. */
  lemma ModifierOrder(collate: Collate, i: nat, j: nat)
    requires i < j < |MODIFIER_KEYS|
    ensures KeyOrder(collate, KeyId(MODIFIER_KEYS[i]), KeyId(MODIFIER_KEYS[j])) < 0
  {
    hide IndexOf;
    ModifiersDiffer();
    IndexOfDistinct(MODIFIER_KEYS, i);
    IndexOfDistinct(MODIFIER_KEYS, j);
  }

  function Insert(collate: Collate, x: KeyId, t: seq<KeyId>): seq<KeyId> {
    if t == [] then [x]
    else if KeyOrder(collate, x, t[0]) <= 0 then [x] + t
    else [t[0]] + Insert(collate, x, t[1..])
  }

  /** `keys.sort(keyOrder)`: the runtime's sort is stable, and so is insertion from the right. */
  function Sort(collate: Collate, keys: seq<KeyId>): seq<KeyId> {
    if keys == [] then [] else Insert(collate, keys[0], Sort(collate, keys[1..]))
  }

  ghost predicate Ordered(collate: Collate, keys: seq<KeyId>) {
    forall j, k :: 0 <= j < k < |keys| ==> KeyOrder(collate, keys[j], keys[k]) <= 0
  }

  /** The keys that tie with `z`, in the order in which they stand. */
  function Ties(collate: Collate, keys: seq<KeyId>, z: KeyId): seq<KeyId> {
    if keys == [] then []
    else (if KeyOrder(collate, keys[0], z) == 0 then [keys[0]] else []) + Ties(collate, keys[1..], z)
  }

  lemma {:induction false} InsertOrdered(collate: Collate, x: KeyId, t: seq<KeyId>)
    requires Collation(collate) && Ordered(collate, t)
    ensures Ordered(collate, Insert(collate, x, t))
    ensures forall y :: y in Insert(collate, x, t) ==> y == x || y in t
  {
    hide KeyOrder, Collation;
    if t != [] {
      KeyOrderLaws(collate, x, t[0], x);
      if KeyOrder(collate, x, t[0]) <= 0 {
        forall k | 0 <= k < |t| ensures KeyOrder(collate, x, t[k]) <= 0 {
          KeyOrderLaws(collate, x, t[0], t[k]);
        }
      } else {
        InsertOrdered(collate, x, t[1..]);
        var r := Insert(collate, x, t[1..]);
        forall k | 0 <= k < |r| ensures KeyOrder(collate, t[0], r[k]) <= 0 {
          assert r[k] in r;
        }
      }
    }
  }

  lemma {:induction false} InsertPermutes(collate: Collate, x: KeyId, t: seq<KeyId>)
    ensures multiset(Insert(collate, x, t)) == multiset{x} + multiset(t)
  {
    hide KeyOrder;
    if t != [] {
      assert t == [t[0]] + t[1..];
      InsertPermutes(collate, x, t[1..]);
    }
  }

  lemma {:induction false} InsertTies(collate: Collate, x: KeyId, t: seq<KeyId>, z: KeyId)
    requires Collation(collate)
    ensures Ties(collate, Insert(collate, x, t), z) ==
            (if KeyOrder(collate, x, z) == 0 then [x] else []) + Ties(collate, t, z)
  {
    hide KeyOrder, Collation;
    if t == [] || KeyOrder(collate, x, t[0]) <= 0 {
      assert Insert(collate, x, t) == [x] + t && ([x] + t)[1..] == t;
    } else {
      var r := Insert(collate, x, t[1..]);
      InsertTies(collate, x, t[1..], z);
      assert ([t[0]] + r)[1..] == r;
      if KeyOrder(collate, x, z) == 0 && KeyOrder(collate, t[0], z) == 0 { TiesAreClasses(collate, x, t[0], z); }
    }
  }

  lemma TiesAreClasses(collate: Collate, a: KeyId, b: KeyId, z: KeyId)
    requires Collation(collate) && KeyOrder(collate, a, z) == 0 && KeyOrder(collate, b, z) == 0
    ensures KeyOrder(collate, a, b) == 0
  {
    hide KeyOrder, Collation;
    KeyOrderLaws(collate, z, a, z);
    KeyOrderLaws(collate, z, b, z);
    KeyOrderLaws(collate, a, z, b);
    KeyOrderLaws(collate, b, z, a);
    KeyOrderLaws(collate, a, b, a);
  }

  lemma {:induction false} SortFacts(collate: Collate, keys: seq<KeyId>)
    requires Collation(collate)
    ensures Ordered(collate, Sort(collate, keys))
    ensures multiset(Sort(collate, keys)) == multiset(keys) && |Sort(collate, keys)| == |keys|
  {
    hide KeyOrder, Collation, Insert, Ordered;
    if keys == [] {
      assert Ordered(collate, []) by { NothingOrdered(collate); }
    } else {
      SortFacts(collate, keys[1..]);
      InsertOrdered(collate, keys[0], Sort(collate, keys[1..]));
      InsertPermutes(collate, keys[0], Sort(collate, keys[1..]));
      assert keys == [keys[0]] + keys[1..];
      assert |multiset(Sort(collate, keys))| == |multiset(keys)|;
    }
  }

  lemma NothingOrdered(collate: Collate)
    ensures Ordered(collate, [])
  {
  }

  lemma {:induction false} SortKeepsTies(collate: Collate, keys: seq<KeyId>, z: KeyId)
    requires Collation(collate)
    ensures Ties(collate, Sort(collate, keys), z) == Ties(collate, keys, z)
  {
    hide KeyOrder, Collation, Insert;
    if keys != [] {
      SortKeepsTies(collate, keys[1..], z);
      InsertTies(collate, keys[0], Sort(collate, keys[1..]), z);
    }
  }

  lemma {:induction false} TiesSubset(collate: Collate, keys: seq<KeyId>, z: KeyId, y: KeyId)
    requires y in Ties(collate, keys, z)
    ensures y in keys && KeyOrder(collate, y, z) == 0
  {
    hide KeyOrder;
    if !(KeyOrder(collate, keys[0], z) == 0 && keys[0] == y) { TiesSubset(collate, keys[1..], z, y); }
  }

  /** The first key of an ordered list comes no later than any key that ties somewhere in it. */
  lemma HeadIsLeast(collate: Collate, keys: seq<KeyId>, z: KeyId)
    requires Collation(collate) && Ordered(collate, keys) && Ties(collate, keys, z) != []
    ensures keys != [] && KeyOrder(collate, keys[0], z) <= 0
  {
    hide KeyOrder, Collation;
    var y := Ties(collate, keys, z)[0];
    TiesSubset(collate, keys, z, y);
    KeyOrderLaws(collate, y, y, y);
    var k :| 0 <= k < |keys| && keys[k] == y;
    KeyOrderLaws(collate, keys[0], y, z);
  }

  lemma TiesWithItself(collate: Collate, keys: seq<KeyId>)
    requires Collation(collate) && keys != []
    ensures Ties(collate, keys, keys[0]) != [] && Ties(collate, keys, keys[0])[0] == keys[0]
  {
    hide KeyOrder, Collation;
    KeyOrderLaws(collate, keys[0], keys[0], keys[0]);
  }

  ghost predicate SameTies(collate: Collate, a: seq<KeyId>, b: seq<KeyId>) {
    forall z :: Ties(collate, a, z) == Ties(collate, b, z)
  }

  lemma SameHead(collate: Collate, a: seq<KeyId>, b: seq<KeyId>)
    requires Collation(collate) && Ordered(collate, a) && Ordered(collate, b) && SameTies(collate, a, b) && a != []
    ensures b != [] && a[0] == b[0]
  {
    hide KeyOrder, Collation, Ordered;
    TiesWithItself(collate, a);
    assert Ties(collate, a, a[0]) == Ties(collate, b, a[0]);
    HeadIsLeast(collate, b, a[0]);
    TiesWithItself(collate, b);
    assert Ties(collate, a, b[0]) == Ties(collate, b, b[0]);
    HeadIsLeast(collate, a, b[0]);
    KeyOrderLaws(collate, a[0], b[0], a[0]);
    assert KeyOrder(collate, b[0], a[0]) == 0;
    assert Ties(collate, b, a[0])[0] == b[0];
  }

  lemma SameTail(collate: Collate, x: KeyId, a: seq<KeyId>, b: seq<KeyId>)
    requires SameTies(collate, [x] + a, [x] + b)
    ensures SameTies(collate, a, b)
  {
    hide KeyOrder;
    assert ([x] + a)[1..] == a && ([x] + b)[1..] == b;
    forall z ensures Ties(collate, a, z) == Ties(collate, b, z) {
      var lead := if KeyOrder(collate, x, z) == 0 then [x] else [];
      assert lead + Ties(collate, a, z) == Ties(collate, [x] + a, z);
      assert lead + Ties(collate, b, z) == Ties(collate, [x] + b, z);
      assert Ties(collate, a, z) == (lead + Ties(collate, a, z))[|lead|..];
      assert Ties(collate, b, z) == (lead + Ties(collate, b, z))[|lead|..];
    }
  }

  lemma {:induction false} OrderedTiesDetermine(collate: Collate, a: seq<KeyId>, b: seq<KeyId>)
    requires Collation(collate) && Ordered(collate, a) && Ordered(collate, b) && SameTies(collate, a, b)
    ensures a == b
  {
    hide KeyOrder, Collation, SameTies, Ties;
    if a != [] {
      SameHead(collate, a, b);
      assert a == [a[0]] + a[1..] && b == [b[0]] + b[1..];
      SameTail(collate, a[0], a[1..], b[1..]);
      OrderedTiesDetermine(collate, a[1..], b[1..]);
    } else if b != [] {
      assert SameTies(collate, b, a) by { SameTiesSymmetric(collate, a, b); }
      SameHead(collate, b, a);
    }
  }

  lemma SameTiesSymmetric(collate: Collate, a: seq<KeyId>, b: seq<KeyId>)
    requires SameTies(collate, a, b)
    ensures SameTies(collate, b, a)
  {
    hide Ties;
    forall z ensures Ties(collate, b, z) == Ties(collate, a, z) {
      assert Ties(collate, a, z) == Ties(collate, b, z);
    }
  }

  /** A list is what `keys.sort(keyOrder)` yields exactly when it is ordered and keeps tying keys
      in their given order: whichever stable algorithm the runtime has, the combination is this one. */
  lemma SortExactly(collate: Collate, keys: seq<KeyId>, out: seq<KeyId>)
    requires Collation(collate)
    ensures out == Sort(collate, keys) <==> Ordered(collate, out) && SameTies(collate, out, keys)
  {
    hide KeyOrder, Collation, Ordered, Ties, Sort;
    var sorted := Sort(collate, keys);
    forall z ensures Ties(collate, sorted, z) == Ties(collate, keys, z) {
      SortKeepsTies(collate, keys, z);
    }
    SortFacts(collate, keys);
    if Ordered(collate, out) && SameTies(collate, out, keys) {
      forall z ensures Ties(collate, out, z) == Ties(collate, sorted, z) {
        SortKeepsTies(collate, keys, z);
      }
      OrderedTiesDetermine(collate, out, sorted);
    }
  }

  // ---------------------------------------------------------------- presses and shortcuts

  /** The provider's methods that the combination paths use. */
  datatype Call = Press(keys: seq<KeyId>) | Release(key: KeyId)

  datatype Outcome = Ok | InvalidKeys | InvalidKey

  /** `keys.map(normalizeKeyId)`: nothing as soon as one identifier is refused. */
  function NormalizeAll(keys: seq<Option<string>>): (r: Option<seq<KeyId>>)
    ensures r.Some? <==> forall k :: k in keys ==> Normalize(k).Some?
    ensures r.Some? ==> |r.value| == |keys| && forall i :: 0 <= i < |keys| ==> Normalize(keys[i]) == Some(r.value[i])
  {
    if keys == [] then Some([])
    else
      var head, rest := Normalize(keys[0]), NormalizeAll(keys[1..]);
      assert keys == [keys[0]] + keys[1..];
      if head.Some? && rest.Some? then Some([head.value] + rest.value) else None
  }

  function Releases(keys: seq<KeyId>): seq<Call> {
    if keys == [] then [] else Releases(keys[1..]) + [Release(keys[0])]
  }

  function PressCalls(collate: Collate, keys: seq<Option<string>>): (seq<Call>, Outcome) {
    if keys == [] then ([], InvalidKeys)
    else
      match NormalizeAll(keys)
      case None => ([], InvalidKey)
      case Some(ids) => ([Press(Sort(collate, ids))], Ok)
  }

  function ShortcutCalls(collate: Collate, keys: seq<Option<string>>): (seq<Call>, Outcome) {
    match NormalizeAll(keys)
    case None => ([], InvalidKey)
    case Some(ids) =>
      if |ids| < 2 then ([], InvalidKeys)
      else ([Press(Sort(collate, ids))] + Releases(Sort(collate, ids)), Ok)
  }

  /** How often each key is down after these calls: every press counts, every release undoes one. */
  function Held(held: multiset<KeyId>, calls: seq<Call>): multiset<KeyId> {
    if calls == [] then held
    else
      var before := Held(held, calls[..|calls| - 1]);
      match calls[|calls| - 1] case Press(keys) => before + multiset(keys) case Release(k) => before - multiset{k}
  }

  /** Which keys are down for an operating system, to which a key is either down or up. */
  function Down(down: set<KeyId>, calls: seq<Call>): set<KeyId> {
    if calls == [] then down
    else
      var before := Down(down, calls[..|calls| - 1]);
      match calls[|calls| - 1] case Press(keys) => before + (set k | k in keys) case Release(k) => before - {k}
  }

  lemma TakeAway<T>(m: multiset<T>, k: T, rest: multiset<T>)
    ensures m - rest - multiset{k} == m - (multiset{k} + rest)
  {
  }

  lemma {:induction false} ReleasesUndo(first: Call, keys: seq<KeyId>, held: multiset<KeyId>)
    ensures Held(held, [first] + Releases(keys)) == Held(held, [first]) - multiset(keys)
  {
    hide Held;
    if keys == [] {
      assert [first] + Releases(keys) == [first];
    } else {
      var k, rest := keys[0], keys[1..];
      var before := [first] + Releases(rest);
      ReleasesUndo(first, rest, held);
      assert [first] + Releases(keys) == before + [Release(k)];
      HeldAfterRelease(held, before, k);
      assert multiset(keys) == multiset{k} + multiset(rest) by { assert keys == [k] + rest; }
      TakeAway(Held(held, [first]), k, multiset(rest));
    }
  }

  lemma HeldAfterRelease(held: multiset<KeyId>, calls: seq<Call>, k: KeyId)
    ensures Held(held, calls + [Release(k)]) == Held(held, calls) - multiset{k}
  {
    assert (calls + [Release(k)])[..|calls|] == calls;
  }

  lemma {:induction false} ReleasesLift(first: Call, keys: seq<KeyId>, down: set<KeyId>)
    ensures Down(down, [first] + Releases(keys)) == Down(down, [first]) - set k | k in keys
  {
    if keys == [] {
      assert [first] + [] == [first];
    } else {
      var calls := [first] + Releases(keys);
      ReleasesLift(first, keys[1..], down);
      assert calls[..|calls| - 1] == [first] + Releases(keys[1..]);
      assert (set k | k in keys) == {keys[0]} + (set k | k in keys[1..]) by { assert keys == [keys[0]] + keys[1..]; }
    }
  }

  predicate Accepted(keys: seq<Option<string>>) {
    |keys| >= 2 && forall k :: k in keys ==> Normalize(k).Some?
  }

  /** A shortcut either is refused without touching the provider, or presses an ordered
      permutation of its keys and lets go of all of them, so that every key is held exactly as
      often as before, and its keys are all held in between. */
  lemma ShortcutRestoresHeld(collate: Collate, keys: seq<Option<string>>, held: multiset<KeyId>)
    requires Collation(collate)
    ensures var (calls, outcome) := ShortcutCalls(collate, keys);
            && (outcome == Ok <==> Accepted(keys))
            && (outcome != Ok ==> calls == [])
            && Held(held, calls) == held
            && (outcome == Ok ==>
                && multiset(calls[0].keys) == multiset(NormalizeAll(keys).value)
                && Held(held, calls[..1]) == held + multiset(calls[0].keys))
  {
    hide KeyOrder, Collation, Sort, Normalize, Ordered;
    if Accepted(keys) {
      var ids := NormalizeAll(keys).value;
      var calls := ShortcutCalls(collate, keys).0;
      SortFacts(collate, ids);
      ReleasesUndo(Press(Sort(collate, ids)), Sort(collate, ids), held);
      assert calls[..1] == [Press(Sort(collate, ids))] && calls[..1][..0] == [];
    }
  }

  /** Of a nonempty list of legal keys, press makes one call, with the only ordered list that keeps
      tying keys in their order; it refuses an empty list, and a list with any other key, with the
      error for each and without a call. */
  lemma PressExactly(collate: Collate, keys: seq<Option<string>>) returns (out: seq<KeyId>)
    requires Collation(collate)
    ensures PressCalls(collate, keys) ==
            if keys == [] then ([], InvalidKeys)
            else if exists k :: k in keys && Normalize(k).None? then ([], InvalidKey)
            else ([Press(out)], Ok)
    ensures NormalizeAll(keys).Some? ==> Ordered(collate, out) && SameTies(collate, out, NormalizeAll(keys).value)
  {
    hide Normalize, Sort;
    out := if NormalizeAll(keys).Some? then Sort(collate, NormalizeAll(keys).value) else [];
    if NormalizeAll(keys).Some? { SortExactly(collate, NormalizeAll(keys).value, out); }
  }

  /** A shortcut refuses an illegal key before it refuses too few, and otherwise presses the same
      list as press and then lets go of it key by key. */
  lemma ShortcutExactly(collate: Collate, keys: seq<Option<string>>) returns (out: seq<KeyId>)
    requires Collation(collate)
    ensures ShortcutCalls(collate, keys) ==
            if exists k :: k in keys && Normalize(k).None? then ([], InvalidKey)
            else if |keys| < 2 then ([], InvalidKeys)
            else ([Press(out)] + Releases(out), Ok)
    ensures NormalizeAll(keys).Some? ==> Ordered(collate, out) && SameTies(collate, out, NormalizeAll(keys).value)
  {
    hide Normalize, Sort;
    out := if NormalizeAll(keys).Some? then Sort(collate, NormalizeAll(keys).value) else [];
    if NormalizeAll(keys).Some? { SortExactly(collate, NormalizeAll(keys).value, out); }
  }

  /** The keys the system takes to be down come back exactly when none of the shortcut's keys
      was down already: one held by the user is released under their finger. */
  lemma DownRestoredExactly(collate: Collate, keys: seq<Option<string>>, down: set<KeyId>)
    requires Collation(collate) && Accepted(keys)
    ensures Down(down, ShortcutCalls(collate, keys).0) == down <==>
            forall k :: k in NormalizeAll(keys).value ==> k !in down
  {
    hide KeyOrder, Collation, Sort, Normalize, Ordered;
    var ids := NormalizeAll(keys).value;
    var sorted := Sort(collate, ids);
    SortFacts(collate, ids);
    ReleasesLift(Press(sorted), sorted, down);
    assert [Press(sorted)][..0] == [];
    forall k ensures k in sorted <==> k in ids {
      assert k in multiset(sorted) <==> k in multiset(ids);
    }
    assert Down(down, ShortcutCalls(collate, keys).0) == down - set k | k in sorted;
  }

  lemma {:induction false} ReleaseAt(keys: seq<KeyId>, i: nat)
    requires i < |keys|
    ensures |Releases(keys)| == |keys| && Releases(keys)[i] == Release(keys[|keys| - 1 - i])
  {
    if |keys| > 1 { ReleaseAt(keys[1..], if i < |keys| - 1 then i else 0); }
  }

  /** Keys come up in the reverse of the order in which they were pressed: modifiers are pressed
      before every other key, and released after it. */
  lemma ModifiersLastUp(collate: Collate, keys: seq<Option<string>>, i: nat, j: nat)
    requires Collation(collate) && Accepted(keys) && i < j < |keys|
    ensures var calls, order := ShortcutCalls(collate, keys).0, Sort(collate, NormalizeAll(keys).value);
            && |order| == |keys| && |calls| == |keys| + 1
            && calls[0] == Press(order)
            && calls[1 + i] == Release(order[|keys| - 1 - i])
            && (IsModifier(order[j]) ==> IsModifier(order[i]))
  {
    hide KeyOrder, Collation, Sort, Normalize;
    var order := Sort(collate, NormalizeAll(keys).value);
    SortFacts(collate, NormalizeAll(keys).value);
    ReleaseAt(order, i);
    KeyOrderLaws(collate, order[j], order[i], order[i]);
    assert KeyOrder(collate, order[i], order[j]) <= 0;
    KeyOrderLaws(collate, order[i], order[j], order[i]);
  }

  // ---------------------------------------------------------------- the object

  class KeyboardController {
    const collate: Collate
    /** What the provider was told. */
    var calls: seq<Call>

    constructor (collate: Collate)
      ensures calls == [] && this.collate == collate
    {
      this.collate := collate;
      calls := [];
    }

    method PressKeys(keys: seq<Option<string>>) returns (outcome: Outcome)
      modifies this
      ensures calls == old(calls) + PressCalls(collate, keys).0 && outcome == PressCalls(collate, keys).1
    {
      if |keys| == 0 { return InvalidKeys; }
      var ids := NormalizeAll(keys);
      if ids.None? { return InvalidKey; }
      calls := calls + [Press(Sort(collate, ids.value))];
      return Ok;
    }

    method Shortcut(keys: seq<Option<string>>) returns (outcome: Outcome)
      modifies this
      ensures calls == old(calls) + ShortcutCalls(collate, keys).0 && outcome == ShortcutCalls(collate, keys).1
    {
      hide KeyOrder, Sort, Normalize;
      var ids := NormalizeAll(keys);
      if ids.None? { return InvalidKey; }
      if |ids.value| < 2 { return InvalidKeys; }
      var ordered := Sort(collate, ids.value);
      calls := calls + [Press(ordered)];
      var i := |ordered|;
      while i > 0
        invariant 0 <= i <= |ordered|
        invariant calls == old(calls) + [Press(ordered)] + Releases(ordered[i..])
      {
        i := i - 1;
        assert ordered[i..][1..] == ordered[i + 1..];
        calls := calls + [Release(ordered[i])];
      }
      assert ordered[0..] == ordered;
      return Ok;
    }
  }
}
