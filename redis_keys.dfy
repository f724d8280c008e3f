/** The Redis key builders of the reference component (packages/example/src/dao/redis.ts). */
module RedisKeys {

  /** The transaction-status key. The builder ignores both arguments: every
      component and every transaction share this one key. */
  function BuildTXKey(componentID: string, txID: string): string {
    "txKey:componentID:txID"
  }

  function BuildTXDetailKey(componentID: string, txID: string): string {
    "txDetailKey:" + componentID + ":" + txID
  }

  function BuildDataKey(componentID: string, txID: string, bizID: string): string {
    "txKey:" + componentID + ":" + txID + ":" + bizID
  }

  function BuildTXLockKey(componentID: string, txID: string): string {
    "txLockKey:" + componentID + ":" + txID
  }

  function BuildTXRecordLockKey(): string {
    "akt-tcc:txRecord:lock"
  }

  /** The number of ':' in a string. */
  function Colons(s: string): nat {
    multiset(s)[':']
  }

  predicate ColonFree(s: string) {
    forall i :: 0 <= i < |s| ==> s[i] != ':'
  }

  lemma TXKeyIgnoresArguments(c1: string, t1: string, c2: string, t2: string)
    ensures BuildTXKey(c1, t1) == BuildTXKey(c2, t2)
  {
  }

  lemma NoColons(s: string)
    requires ColonFree(s)
    ensures Colons(s) == 0
  {
    assert ':' !in s;
  }

  lemma ColonsOfJoin(a: string, b: string)
    ensures Colons(a + ":" + b) == Colons(a) + 1 + Colons(b)
  {
    assert multiset(a + ":" + b) == multiset(a) + multiset{':'} + multiset(b);
  }

  /** Three ':'-free parts joined by ':' hold exactly two ':'. */
  lemma ThreeColonFreeParts(x: string, y: string, z: string)
    requires ColonFree(x) && ColonFree(y) && ColonFree(z)
    ensures Colons(x + ":" + y + ":" + z) == 2
  {
    NoColons(x);
    NoColons(y);
    NoColons(z);
    ColonsOfJoin(x, y);
    ColonsOfJoin(x + ":" + y, z);
  }

  lemma DataKeyHasAtLeastThreeColons(componentID: string, txID: string, bizID: string)
    ensures Colons(BuildDataKey(componentID, txID, bizID)) >= 3
  {
    ColonsOfJoin("txKey", componentID);
    ColonsOfJoin("txKey:" + componentID, txID);
    ColonsOfJoin("txKey:" + componentID + ":" + txID, bizID);
  }

  /** No data key is the shared status key: the status key is three ':'-free
      words joined by ':', so it holds two ':' where a data key holds three. */
  lemma DataKeyIsNotTXKey(c: string, t: string, b: string, c': string, t': string)
    ensures BuildDataKey(c, t, b) != BuildTXKey(c', t')
  {
    assert BuildTXKey(c', t') == "txKey" + ":" + "componentID" + ":" + "txID";
    ThreeColonFreeParts("txKey", "componentID", "txID");
    DataKeyHasAtLeastThreeColons(c, t, b);
  }

  /** Detail keys start "txD", status and data keys "txK", lock keys "txL":
      a detail key never collides with the others. */
  lemma DetailKeyIsDistinct(c: string, t: string, c': string, t': string, b: string)
    ensures BuildTXDetailKey(c, t) != BuildTXKey(c', t')
    ensures BuildTXDetailKey(c, t) != BuildDataKey(c', t', b)
    ensures BuildTXDetailKey(c, t) != BuildTXLockKey(c', t')
  {
    assert BuildTXDetailKey(c, t)[2] == 'D';
    assert BuildTXKey(c', t')[2] == 'K';
    assert BuildDataKey(c', t', b)[2] == 'K';
    assert BuildTXLockKey(c', t')[2] == 'L';
  }

  /** Lock keys never collide with the keys that hold state. */
  lemma LockKeysAreDistinct(c: string, t: string, c': string, t': string, b: string)
    ensures BuildTXLockKey(c, t) != BuildTXKey(c', t')
    ensures BuildTXLockKey(c, t) != BuildDataKey(c', t', b)
    ensures BuildTXRecordLockKey() != BuildTXLockKey(c, t)
    ensures BuildTXRecordLockKey() != BuildTXKey(c', t')
    ensures BuildTXRecordLockKey() != BuildDataKey(c', t', b)
    ensures BuildTXRecordLockKey() != BuildTXDetailKey(c', t')
  {
    assert BuildTXLockKey(c, t)[2] == 'L';
    assert BuildTXKey(c', t')[2] == 'K';
    assert BuildDataKey(c', t', b)[2] == 'K';
    assert BuildTXRecordLockKey()[0] == 'a';
    assert BuildTXLockKey(c, t)[0] == 't';
    assert BuildTXDetailKey(c', t')[0] == 't';
  }

  /** `a + ":" + b` determines `a` and `b` when `a` holds no ':'. */
  lemma SplitAtFirstColon(a: string, b: string, c: string, d: string)
    requires ColonFree(a) && ColonFree(c)
    requires a + ":" + b == c + ":" + d
    ensures a == c && b == d
  {
    var s := a + ":" + b;
    assert s == c + ":" + d;
    assert s[|a|] == ':';
    assert s[|c|] == ':';
    assert forall i :: 0 <= i < |a| ==> s[i] == a[i];
    assert forall i :: 0 <= i < |c| ==> s[i] == c[i];
    assert |a| == |c|;
    assert a == s[..|a|];
    assert c == s[..|c|];
    assert b == s[|a| + 1..];
    assert d == s[|c| + 1..];
  }

  /** With ':'-free component ids, distinct (component, transaction) pairs
      have distinct detail keys. */
  lemma DetailKeyInjective(c: string, t: string, c': string, t': string)
    requires ColonFree(c) && ColonFree(c')
    ensures BuildTXDetailKey(c, t) == BuildTXDetailKey(c', t') ==> c == c' && t == t'
  {
    if BuildTXDetailKey(c, t) == BuildTXDetailKey(c', t') {
      var p := "txDetailKey:";
      assert BuildTXDetailKey(c, t) == p + (c + ":" + t);
      assert BuildTXDetailKey(c', t') == p + (c' + ":" + t');
      assert c + ":" + t == (p + (c + ":" + t))[|p|..];
      assert c' + ":" + t' == (p + (c' + ":" + t'))[|p|..];
      SplitAtFirstColon(c, t, c', t');
    }
  }

  /** With ':'-free component ids, a data key names its component: data keys
      of two different components never collide. */
  lemma DataKeyNamesItsComponent(c: string, t: string, b: string, c': string, t': string, b': string)
    requires ColonFree(c) && ColonFree(c')
    ensures BuildDataKey(c, t, b) == BuildDataKey(c', t', b') ==> c == c'
  {
    if BuildDataKey(c, t, b) == BuildDataKey(c', t', b') {
      var p := "txKey:";
      assert BuildDataKey(c, t, b) == p + (c + ":" + (t + ":" + b));
      assert BuildDataKey(c', t', b') == p + (c' + ":" + (t' + ":" + b'));
      assert c + ":" + (t + ":" + b) == BuildDataKey(c, t, b)[|p|..];
      assert c' + ":" + (t' + ":" + b') == BuildDataKey(c', t', b')[|p|..];
      SplitAtFirstColon(c, t + ":" + b, c', t' + ":" + b');
    }
  }
}
