/** cluster.h and cluster.c: the hash slot of a key, and the slot that can be inferred for every
    key a glob pattern matches.  `crc16` is any hash function.
  */
module HashSlot {
  import opened Glob

  const SLOTS := 0x4000  // the slot is the low 14 bits

  /** The first `c` at or after `from`, or the length. */
  function Find(s: string, c: char, from: nat): (i: nat)
    requires from <= |s|
    ensures from <= i <= |s| && (forall k :: from <= k < i ==> s[k] != c) && (i < |s| ==> s[i] == c)
    decreases |s| - from
  {
    if from == |s| || s[from] == c then from else Find(s, c, from + 1)
  }

  lemma FindIs(s: string, c: char, from: nat, i: nat)
    requires from <= i <= |s| && (forall k :: from <= k < i ==> s[k] != c) && (i < |s| ==> s[i] == c)
    ensures Find(s, c, from) == i
  {
  }

  /** What is hashed: the text between the first opening brace and the first closing brace
      behind it, unless there is none or it is empty. */
  function HashedPart(key: string): string {
    var s := Find(key, '{', 0);
    if s == |key| then key
    else
      var e := Find(key, '}', s + 1);
      if e == |key| || e == s + 1 then key else key[s + 1..e]
  }

  /** The first opening brace is at `s`, and the first closing brace behind it at `e`, with
      something between them. */
  predicate TagOf(key: string, s: nat, e: nat) {
    && s + 1 < e < |key| && key[s] == '{' && key[e] == '}'
    && (forall k :: 0 <= k < s ==> key[k] != '{') && (forall k :: s < k < e ==> key[k] != '}')
  }

  /** Only the tag is hashed, or the whole key if there is none. */
  lemma HashedIs(key: string)
    ensures forall s: nat, e: nat :: TagOf(key, s, e) ==> HashedPart(key) == key[s + 1..e]
    ensures (forall s: nat, e: nat :: !TagOf(key, s, e)) ==> HashedPart(key) == key
  {
    forall s: nat, e: nat | TagOf(key, s, e)
      ensures HashedPart(key) == key[s + 1..e]
    {
      FindIs(key, '{', 0, s);
      FindIs(key, '}', s + 1, e);
    }
    var s := Find(key, '{', 0);
    if s < |key| {
      assert TagOf(key, s, Find(key, '}', s + 1)) || HashedPart(key) == key;
    }
  }

  function KeySlot(key: string, crc16: string -> nat): nat {
    crc16(HashedPart(key)) % SLOTS
  }

  /** keyHashSlot. */
  method KeyHashSlot(key: string, crc16: string -> nat) returns (slot: nat)
    ensures slot == KeySlot(key, crc16) && slot < 16384
    ensures forall s: nat, e: nat :: TagOf(key, s, e) ==> slot == crc16(key[s + 1..e]) % 16384
    ensures (forall s: nat, e: nat :: !TagOf(key, s, e)) ==> slot == crc16(key) % 16384
  {
    HashedIs(key);
    var s := 0;
    while s < |key|
      invariant s <= |key| && forall k :: 0 <= k < s ==> key[k] != '{'
    {
      if key[s] == '{' {
        break;
      }
      s := s + 1;
    }
    FindIs(key, '{', 0, s);
    if s == |key| {
      return crc16(key) % SLOTS;
    }
    var e := s + 1;
    while e < |key|
      invariant s < e <= |key| && forall k :: s + 1 <= k < e ==> key[k] != '}'
    {
      if key[e] == '}' {
        break;
      }
      e := e + 1;
    }
    FindIs(key, '}', s + 1, e);
    if e == |key| || e == s + 1 {
      return crc16(key) % SLOTS;
    }
    return crc16(key[s + 1..e]) % SLOTS;
  }

  /** The pattern's first `n` characters are literal. */
  predicate Literal(p: string, n: nat)
    requires n <= |p|
  {
    forall i :: 0 <= i < n ==> !Special(p[i])
  }

  /** A nonempty tag closes at `e`. */
  predicate TagAt(p: string, e: nat) {
    && e < |p|
    && var s := Find(p, '{', 0);
       s + 1 < e && Find(p, '}', s + 1) == e
  }

  /** A tag ends at the first closing brace, and not right behind the opening one. */
  lemma TagAtIs(p: string, i: nat)
    requires i < |p|
    ensures TagAt(p, i) <==> var s := Find(p, '{', 0);
                             s + 1 < i && p[i] == '}' && forall k :: s < k < i ==> p[k] != '}'
  {
    var s := Find(p, '{', 0);
    if s + 1 < i && p[i] == '}' && (forall k :: s < k < i ==> p[k] != '}') {
      FindIs(p, '}', s + 1, i);
    }
  }

  /** The tag of a string is the tag of everything that starts the same way. */
  lemma TagOfPrefix(p: string, e: nat, key: string)
    requires TagAt(p, e) && e < |key| && key[..e + 1] == p[..e + 1]
    ensures var s := Find(p, '{', 0); s + 1 < e && HashedPart(key) == p[s + 1..e]
  {
    var s := Find(p, '{', 0);
    assert forall k :: 0 <= k <= e ==> key[k] == key[..e + 1][k] == p[..e + 1][k] == p[k];
    FindIs(key, '{', 0, s);
    FindIs(key, '}', s + 1, e);
    assert key[s + 1..e] == key[..e + 1][s + 1..e] == p[s + 1..e];
  }

  /** All keys with a given tag that a literal prefix fixes are in one slot. */
  lemma TaggedPattern(p: string, e: nat, crc16: string -> nat, key: string)
    requires TagAt(p, e) && Literal(p, e + 1) && Matches(p, key)
    ensures var s := Find(p, '{', 0); s + 1 < e && KeySlot(key, crc16) == crc16(p[s + 1..e]) % SLOTS
  {
    LiteralPrefix(p, key, false, 0, e + 1);
    TagOfPrefix(p, e, key);
  }

  lemma MatchesItself(p: string, key: string)
    requires Literal(p, |p|) && Matches(p, key)
    ensures key == p
  {
    LiteralWhole(p, key, false, 0);
  }

  /** patternHashSlot.  A slot is returned exactly when no special character comes before the
      end of the first nonempty tag (or of the pattern); then every matching key is in it. */
  method PatternHashSlot(pattern: string, crc16: string -> nat) returns (slot: int)
    ensures slot >= 0 ==> forall key: string :: Matches(pattern, key) ==> KeySlot(key, crc16) == slot
    ensures slot == -1 <==> !Literal(pattern, |pattern|)
                            && !exists e: nat :: TagAt(pattern, e) && Literal(pattern, e + 1)
    ensures slot == -1 || 0 <= slot < SLOTS
  {
    hide Find, Matches, TagAt;
    var s := -1;
    var i := 0;
    ghost var first: nat := Find(pattern, '{', 0);
    while i < |pattern|
      invariant i <= |pattern| && Literal(pattern, i)
      invariant s == -1 ==> i <= first
      invariant s >= 0 ==> s == first < i && forall k :: first < k < i ==> pattern[k] != '}'
      invariant s < 0 && s != -1 ==> s == -2 && first + 1 < i && pattern[first + 1] == '}'
      invariant s == -2 ==> Find(pattern, '}', first + 1) == first + 1
      invariant forall e: nat :: e < i ==> !TagAt(pattern, e)
    {
      TagAtIs(pattern, i);
      if pattern[i] == '*' || pattern[i] == '?' || pattern[i] == '[' {
        assert Special(pattern[i]);
        return -1;
      } else if pattern[i] == '\\' {
        assert Special(pattern[i]);
        return -1;
      } else if s == -1 && pattern[i] == '{' {
        s := i;
      } else if s >= 0 && pattern[i] == '}' && i == s + 1 {
        FindIs(pattern, '}', s + 1, i);
        s := -2;
      } else if s >= 0 && pattern[i] == '}' {
        assert TagAt(pattern, i) && Literal(pattern, i + 1);
        forall key: string | Matches(pattern, key)
          ensures KeySlot(key, crc16) == crc16(pattern[s + 1..i]) % SLOTS
        {
          TaggedPattern(pattern, i, crc16, key);
        }
        return crc16(pattern[s + 1..i]) % SLOTS;
      }
      i := i + 1;
    }
    forall key: string | Matches(pattern, key)
      ensures key == pattern
    {
      MatchesItself(pattern, key);
    }
    if s >= 0 {
      FindIs(pattern, '}', s + 1, |pattern|);
    }
    return crc16(pattern) % SLOTS;
  }
}
