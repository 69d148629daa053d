/**
  The card store of db.go as a map from card key to card, plus the set of
  recorded migrations: `Upsert` and the one-time seeding `Connect` runs.
 */
module Store {
  import opened Cards
  import opened Catalog

  /** The migration recorded once the default catalog has been seeded. */
  const DefaultsMigration: string := "defaults"

  /** The card bucket (key to card) and the keys present in the migration bucket. */
  datatype Db = Db(cards: map<string, Card>, migrations: set<string>)

  /** Store `card` under its key, replacing any card stored there. */
  function Upsert(db: Db, card: Card): (r: Db)
    ensures Key(card) in r.cards && r.cards[Key(card)] == card
    ensures r.cards.Keys == db.cards.Keys + {Key(card)}
    ensures forall k :: k in db.cards && k != Key(card) ==> r.cards[k] == db.cards[k]
    ensures r.migrations == db.migrations
  {
    db.(cards := db.cards[Key(card) := card])
  }

  /** Writing the same card twice is writing it once; of two writes under one key the later wins. */
  lemma UpsertLastWriteWins(db: Db, c1: Card, c2: Card)
    requires Key(c1) == Key(c2)
    ensures Upsert(Upsert(db, c1), c2) == Upsert(db, c2)
    ensures Upsert(Upsert(db, c2), c2) == Upsert(db, c2)
  {
  }

  /** The keys of a sequence of cards. */
  function Keys(cs: seq<Card>): set<string>
  {
    set i | 0 <= i < |cs| :: Key(cs[i])
  }

  /** The keys of a nonempty sequence: its head's key and its tail's keys. */
  lemma KeysCons(cs: seq<Card>)
    requires |cs| > 0
    ensures Keys(cs) == {Key(cs[0])} + Keys(cs[1..])
  {
    forall k | k in Keys(cs)
      ensures k in {Key(cs[0])} + Keys(cs[1..])
    {
      var i :| 0 <= i < |cs| && Key(cs[i]) == k;
      if i > 0 {
        assert Key(cs[1..][i - 1]) == k;
      }
    }
    forall k | k in Keys(cs[1..])
      ensures k in Keys(cs)
    {
      var i :| 0 <= i < |cs[1..]| && Key(cs[1..][i]) == k;
      assert Key(cs[i + 1]) == k;
    }
  }

  /** Put each card in turn under its key. */
  function PutAll(cards: map<string, Card>, cs: seq<Card>): (r: map<string, Card>)
    ensures r.Keys == cards.Keys + Keys(cs)
    decreases |cs|
  {
    if |cs| == 0 then cards
    else
      KeysCons(cs);
      PutAll(cards[Key(cs[0]) := cs[0]], cs[1..])
  }

  /** No card after position `i` has the key of card `i`. */
  predicate LastWithKey(cs: seq<Card>, i: nat)
    requires i < |cs|
  {
    forall j :: i < j < |cs| ==> Key(cs[j]) != Key(cs[i])
  }

  /** Keys none of the cards has keep their card. */
  lemma {:induction false} PutAllKeepsOthers(cards: map<string, Card>, cs: seq<Card>, k: string)
    requires k in cards && k !in Keys(cs)
    ensures PutAll(cards, cs)[k] == cards[k]
    decreases |cs|
  {
    if |cs| > 0 {
      KeysCons(cs);
      PutAllKeepsOthers(cards[Key(cs[0]) := cs[0]], cs[1..], k);
    }
  }

  /** Last write wins: a card no later card shares its key with is the one stored under that key. */
  lemma {:induction false} PutAllLastWins(cards: map<string, Card>, cs: seq<Card>, i: nat)
    requires i < |cs| && LastWithKey(cs, i)
    ensures Key(cs[i]) in PutAll(cards, cs) && PutAll(cards, cs)[Key(cs[i])] == cs[i]
    decreases |cs|
  {
    KeysCons(cs);
    var next := cards[Key(cs[0]) := cs[0]];
    if i == 0 {
      assert Key(cs[0]) !in Keys(cs[1..]) by {
        forall j | 0 <= j < |cs[1..]|
          ensures Key(cs[1..][j]) != Key(cs[0])
        {
          assert cs[1..][j] == cs[j + 1];
        }
      }
      PutAllKeepsOthers(next, cs[1..], Key(cs[0]));
    } else {
      assert LastWithKey(cs[1..], i - 1) by {
        forall j | i - 1 < j < |cs[1..]|
          ensures Key(cs[1..][j]) != Key(cs[1..][i - 1])
        {
          assert cs[1..][j] == cs[j + 1];
        }
      }
      PutAllLastWins(next, cs[1..], i - 1);
      assert cs[1..][i - 1] == cs[i];
    }
  }

  /**
    Open the store: if the defaults migration is not recorded, put every
    default card and record the migration; otherwise change nothing.
   */
  function Connect(db: Db): (r: Db)
    ensures DefaultsMigration in r.migrations
    ensures r.migrations == db.migrations + {DefaultsMigration}
    // seeding happens at most once
    ensures DefaultsMigration in db.migrations ==> r == db
    // the first time, the default cards' keys are added to the stored ones
    ensures DefaultsMigration !in db.migrations ==> r.cards.Keys == db.cards.Keys + Keys(DefaultCards())
  {
    if DefaultsMigration in db.migrations then db
    else Db(PutAll(db.cards, DefaultCards()), db.migrations + {DefaultsMigration})
  }

  /**
    The first connect stores every default card under its name and leaves
    every other stored card as it was.
   */
  lemma ConnectSeeds(db: Db)
    requires DefaultsMigration !in db.migrations
    ensures forall i :: 0 <= i < CatalogSize ==> Connect(db).cards[Key(DefaultCards()[i])] == DefaultCards()[i]
    ensures forall k :: k in db.cards && k !in Keys(DefaultCards()) ==> Connect(db).cards[k] == db.cards[k]
  {
    var cs := DefaultCards();
    DefaultNamesDistinct();
    forall i | 0 <= i < CatalogSize
      ensures Connect(db).cards[Key(cs[i])] == cs[i]
    {
      assert LastWithKey(cs, i);
      PutAllLastWins(db.cards, cs, i);
    }
    forall k | k in db.cards && k !in Keys(cs)
      ensures Connect(db).cards[k] == db.cards[k]
    {
      PutAllKeepsOthers(db.cards, cs, k);
    }
  }

  /** Connecting twice is connecting once. */
  lemma ConnectIdempotent(db: Db)
    ensures Connect(Connect(db)) == Connect(db)
  {
  }

  /** Progress saved after connecting survives every later connect. */
  lemma ReconnectKeepsProgress(db: Db, card: Card)
    ensures Connect(Upsert(Connect(db), card)) == Upsert(Connect(db), card)
  {
  }

  /** Distinct keys: as many keys as cards. */
  lemma {:induction false} KeysOfDistinct(cs: seq<Card>)
    requires forall i, j :: 0 <= i < j < |cs| ==> Key(cs[i]) != Key(cs[j])
    ensures |Keys(cs)| == |cs|
    decreases |cs|
  {
    if |cs| > 0 {
      var tail := cs[1..];
      KeysCons(cs);
      assert Key(cs[0]) !in Keys(tail) by {
        forall j | 0 <= j < |tail|
          ensures Key(tail[j]) != Key(cs[0])
        {
          assert tail[j] == cs[j + 1];
        }
      }
      KeysOfDistinct(tail);
    }
  }

  /** The catalog has 119 distinct keys. */
  lemma DefaultKeyCount()
    ensures |Keys(DefaultCards())| == CatalogSize
  {
    var cs := DefaultCards();
    DefaultNamesDistinct();
    KeysOfDistinct(cs);
  }

  /**
    Connecting a never-seeded store that holds none of the default keys (an
    empty one, in particular) adds exactly the 119 default cards.
   */
  lemma UnseededStoreGetsCatalog(db: Db)
    requires DefaultsMigration !in db.migrations
    requires db.cards.Keys !! Keys(DefaultCards())
    ensures |Connect(db).cards| == |db.cards| + CatalogSize
    ensures forall i :: 0 <= i < CatalogSize ==> Connect(db).cards[Key(DefaultCards()[i])] == DefaultCards()[i]
  {
    DefaultKeyCount();
    ConnectSeeds(db);
    var keys := Connect(db).cards.Keys;
    assert keys == db.cards.Keys + Keys(DefaultCards());
    assert |keys| == |db.cards.Keys| + |Keys(DefaultCards())|;
  }
}
