/** Guest names in a case-insensitive table (GenerateUsername in CollabVmServer.hpp,
    CaseInsensitiveUtils.hpp). */
module GuestNames {
  const U32_MODULUS: nat := 0x1_0000_0000

  // ------------------------------------------------------- case-insensitive keys

  /** `toupper` in the classic locale. */
  function Upper(c: char): char {
    if 'a' <= c <= 'z' then c - 'a' + 'A' else c
  }

  /** The same character, or the same Latin letter in the other case. */
  predicate SameLetter(c: char, d: char) {
    || c == d
    || ('a' <= c <= 'z' && d as int + 32 == c as int)
    || ('a' <= d <= 'z' && c as int + 32 == d as int)
  }

  /** `iequals`. */
  predicate SameName(a: string, b: string) {
    |a| == |b| && forall i :: 0 <= i < |a| ==> Upper(a[i]) == Upper(b[i])
  }

  /** Names are the same exactly when they differ in nothing but case. */
  lemma CaseIsIgnored(a: string, b: string)
    ensures SameName(a, b) <==> |a| == |b| && forall i :: 0 <= i < |a| ==> SameLetter(a[i], b[i])
  {
    forall c, d ensures Upper(c) == Upper(d) <==> SameLetter(c, d) { UpperJoins(c, d); }
  }

  lemma UpperJoins(c: char, d: char)
    ensures Upper(c) == Upper(d) <==> SameLetter(c, d)
  {
  }

  /** The hasher folds the upper-case characters; `mix` stands for `hash_combine`. */
  function Hash(mix: (nat, char) -> nat, s: string): nat {
    if s == [] then 0 else mix(Hash(mix, s[..|s| - 1]), Upper(s[|s| - 1]))
  }

  /** Keys that the comparator holds equal are never told apart by the hasher. */
  lemma {:induction false} SameNameSameHash(mix: (nat, char) -> nat, a: string, b: string)
    requires SameName(a, b)
    ensures Hash(mix, a) == Hash(mix, b)
    decreases |a|
  {
    if a != [] { SameNameSameHash(mix, a[..|a| - 1], b[..|b| - 1]); }
  }

  method HashOf(mix: (nat, char) -> nat, s: string) returns (seed: nat)
    ensures seed == Hash(mix, s)
  {
    seed := 0;
    for i := 0 to |s|
      invariant seed == Hash(mix, s[..i])
    {
      assert s[..i + 1][..i] == s[..i];
      seed := mix(seed, Upper(s[i]));
    }
    assert s[..|s|] == s;
  }

  // -------------------------------------------------------------------- names

  function Digit(d: nat): char
    requires d < 10
  {
    d as char + '0'
  }

  /** `to_string`. */
  function Decimal(n: nat): string {
    if n < 10 then [Digit(n)] else Decimal(n / 10) + [Digit(n % 10)]
  }

  function GuestName(n: nat): string { "guest" + Decimal(n) }

  function DigitValue(c: char): int { c as int - '0' as int }

  function ValueOf(s: string): int {
    if s == [] then 0 else 10 * ValueOf(s[..|s| - 1]) + DigitValue(s[|s| - 1])
  }

  lemma {:induction false} DecimalRoundTrip(n: nat)
    ensures ValueOf(Decimal(n)) == n
    ensures forall i :: 0 <= i < |Decimal(n)| ==> '0' <= Decimal(n)[i] <= '9'
  {
    if n < 10 {
      assert [Digit(n)][..0] == [];
    } else {
      DecimalRoundTrip(n / 10);
      assert Decimal(n)[..|Decimal(n)| - 1] == Decimal(n / 10);
    }
  }

  /** A guest's name is `guest` and the number as people write it. */
  lemma GuestNameSpelled(n: nat)
    ensures var name := GuestName(n);
            && |name| > 5 && name[..5] == "guest" && ValueOf(name[5..]) == n
            && (forall i :: 5 <= i < |name| ==> '0' <= name[i] <= '9')
            && (|name| > 6 ==> name[5] != '0')
  {
    DecimalRoundTrip(n);
    NoLeadingZero(n);
    assert GuestName(n)[5..] == Decimal(n);
    forall i | 5 <= i < |GuestName(n)| ensures GuestName(n)[i] == Decimal(n)[i - 5] {}
  }

  lemma {:induction false} NoLeadingZero(n: nat)
    ensures |Decimal(n)| > 0 && (n > 0 ==> Decimal(n)[0] != '0') && (|Decimal(n)| > 1 ==> n > 0)
  {
    if n >= 10 { NoLeadingZero(n / 10); }
  }

  /** Different numbers give names that differ even when case is ignored. */
  lemma NamesDiffer(m: nat, n: nat)
    requires SameName(GuestName(m), GuestName(n))
    ensures m == n
  {
    DecimalRoundTrip(m);
    DecimalRoundTrip(n);
    var a, b := Decimal(m), Decimal(n);
    forall i | 0 <= i < |a| ensures a[i] == b[i] {
      assert GuestName(m)[5 + i] == a[i] && GuestName(n)[5 + i] == b[i];
    }
    assert a == b;
  }

  // -------------------------------------------------------------------- table

  ghost predicate Taken(keys: set<string>, name: string) {
    exists k :: k in keys && SameName(k, name)
  }

  /** No two keys of the table are the same name. */
  ghost predicate Distinct(keys: set<string>) {
    forall j, k :: j in keys && k in keys && SameName(j, k) ==> j == k
  }

  /** The number of the k-th try, in 32 bits. */
  function Try(start: nat, k: nat): nat { (start + k) % U32_MODULUS }

  lemma TriesDiffer(start: nat, j: nat, k: nat)
    requires j < k < U32_MODULUS
    ensures Try(start, j) != Try(start, k)
  {
  }

  lemma SameNameTransitive(a: string, b: string, c: string)
    requires SameName(a, b) && SameName(a, c)
    ensures SameName(b, c)
  {
  }

  /** The first `n` tries all hit a taken name. */
  ghost predicate AllTaken(keys: set<string>, start: nat, n: nat) {
    forall k :: 0 <= k < n ==> Taken(keys, GuestName(Try(start, k)))
  }

  lemma NextTry(start: nat, k: nat)
    ensures Try(start, k + 1) == (Try(start, k) + 1) % U32_MODULUS
  {
  }

  lemma KeysSuffice<V>(guests: map<string, V>, start: nat, tries: nat)
    requires tries < U32_MODULUS && AllTaken(guests.Keys, start, tries)
    requires Taken(guests.Keys, GuestName(Try(start, tries)))
    ensures tries < |guests|
  {
    TakenNeedsKeys(guests.Keys, start, tries + 1);
    assert |guests.Keys| == |guests|;
  }

  /** Pigeonhole: names that are all taken need as many keys. */
  lemma {:induction false} TakenNeedsKeys(keys: set<string>, start: nat, n: nat)
    requires n <= U32_MODULUS
    requires AllTaken(keys, start, n)
    ensures n <= |keys|
    decreases n
  {
    if n > 0 {
      var last := GuestName(Try(start, n - 1));
      assert Taken(keys, last);
      var key :| key in keys && SameName(key, last);
      forall k | 0 <= k < n - 1 ensures Taken(keys - {key}, GuestName(Try(start, k))) {
        var name := GuestName(Try(start, k));
        assert Taken(keys, name);
        var other :| other in keys && SameName(other, name);
        if other == key {
          SameNameTransitive(key, last, name);
          NamesDiffer(Try(start, n - 1), Try(start, k));
          TriesDiffer(start, k, n - 1);
        }
      }
      TakenNeedsKeys(keys - {key}, start, n - 1);
    }
  }

  function Without<V>(guests: map<string, V>, name: string): map<string, V> {
    map k | k in guests && !SameName(k, name) :: guests[k]
  }

  /** Erasing a name takes out one entry, whatever case it is asked for in. */
  lemma ErasesOne<V>(guests: map<string, V>, name: string, key: string)
    requires Distinct(guests.Keys) && key in guests && SameName(key, name)
    ensures Without(guests, name) == guests - {key}
    ensures |Without(guests, name)| == |guests| - 1 && !Taken(Without(guests, name).Keys, name)
  {
    forall k | k in guests && SameName(k, name) ensures k == key { SameNameTransitive(name, k, key); }
    assert (guests - {key}).Keys == guests.Keys - {key};
    assert |guests.Keys| == |guests| && |(guests - {key}).Keys| == |guests - {key}|;
  }

  /** The guest table: a hash map whose key equality ignores case. */
  class GuestTable<V(==)> {
    var guests: map<string, V>

    ghost predicate Valid()
      reads this
    {
      Distinct(guests.Keys)
    }

    constructor ()
      ensures Valid() && guests == map[]
    {
      guests := map[];
    }

    /** Looks the name up; a found key may differ from it in case. */
    method Find(name: string) returns (found: bool, ghost key: string)
      ensures found <==> Taken(guests.Keys, name)
      ensures found ==> key in guests && SameName(key, name)
    {
      found := exists k :: k in guests && SameName(k, name);
      if found {
        key :| key in guests && SameName(key, name);
      } else {
        key := name;
      }
    }

    method Insert(name: string, client: V) returns (inserted: bool)
      requires Valid()
      modifies this
      ensures Valid()
      ensures inserted <==> !Taken(old(guests).Keys, name)
      ensures guests == if inserted then old(guests)[name := client] else old(guests)
    {
      var found, key := Find(name);
      if found {
        return false;
      }
      InsertKeepsDistinct(guests.Keys, name);
      guests := guests[name := client];
      assert guests.Keys == old(guests).Keys + {name};
      return true;
    }

    method Erase(name: string)
      requires Valid()
      modifies this
      ensures Valid()
      ensures guests == Without(old(guests), name)
    {
      guests := Without(guests, name);
    }

    /** Counts up from a random number until a name is free: at most as many tries fail as
        the table has entries.  `tries` is the number of names that were taken. */
    method GenerateUsername(start: nat, client: V) returns (username: string, ghost tries: nat)
      requires Valid() && start < U32_MODULUS && |guests| < U32_MODULUS
      modifies this
      ensures Valid() && tries <= |old(guests)|
      ensures username == GuestName(Try(start, tries)) && !Taken(old(guests).Keys, username)
      ensures AllTaken(old(guests).Keys, start, tries)
      ensures guests == old(guests)[username := client]
    {
      var num := start;
      tries := 0;
      username := GuestName(num);
      var inserted := Insert(username, client);
      while !inserted
        invariant num == Try(start, tries) && username == GuestName(num)
        invariant AllTaken(old(guests).Keys, start, tries)
        invariant inserted <==> !Taken(old(guests).Keys, username)
        invariant Valid() && guests == if inserted then old(guests)[username := client] else old(guests)
        invariant tries <= |old(guests)|
        decreases |old(guests)| - tries, !inserted
      {
        KeysSuffice(old(guests), start, tries);
        num := (num + 1) % U32_MODULUS;
        NextTry(start, tries);
        tries := tries + 1;
        username := GuestName(num);
        inserted := Insert(username, client);
      }
    }

    /** A username change takes the new name before it gives up the old one; asking for the
        current name changes nothing. */
    method ChangeUsername(current: string, newName: string, client: V) returns (changed: bool)
      requires Valid()
      modifies this
      ensures Valid()
      ensures changed <==> newName != current && !Taken(old(guests).Keys, newName)
      ensures !changed ==> guests == old(guests)
      ensures changed ==> (newName in guests <==> !SameName(newName, current))
      ensures changed ==> guests == Without(old(guests)[newName := client], current)
    {
      if newName == current {
        return false;
      }
      changed := Insert(newName, client);
      if changed {
        Erase(current);
      }
    }
  }

  lemma InsertKeepsDistinct(keys: set<string>, name: string)
    requires Distinct(keys) && !Taken(keys, name)
    ensures Distinct(keys + {name})
  {
    forall j, k | j in keys + {name} && k in keys + {name} && SameName(j, k) ensures j == k {
      if j == name && k != name {
        assert SameName(k, name);
        assert false;
      }
    }
  }
}
