/**
 * The in-memory wallet repository of the demo: a map filled once by the constructor and
 * only read afterwards. No operation ever writes a balance back into it.
 */
module WalletRepositoryImpl {
  import opened Results
  import opened WalletEntity

  /** The demo seed, in the order the constructor walks it. */
  function DemoWallets(): seq<WalletProps> {
    [ WalletProps("WAL-001", "USER-001", 10_000, "USD"),
      WalletProps("WAL-002", "USER-002", 5_000, "USD"),
      WalletProps("WAL-003", "USER-003", 250, "USD") ]
  }

  /** The map the seeding loop has built after walking `props`: `Wallet.create` successes only. */
  function Seeded(props: seq<WalletProps>): map<string, Wallet> {
    if props == [] then map[]
    else
      var m := Seeded(props[..|props| - 1]);
      var p := props[|props| - 1];
      var r := Create(p);
      if r.success && r.value.Some? then m[p.walletId := r.value.value] else m
  }

  /** The demo seed yields exactly its three wallets: every one of them has a balance of at least zero. */
  lemma DemoSeedContents()
    ensures Seeded(DemoWallets()) == map[
      "WAL-001" := Wallet("WAL-001", "USER-001", 10_000, "USD"),
      "WAL-002" := Wallet("WAL-002", "USER-002", 5_000, "USD"),
      "WAL-003" := Wallet("WAL-003", "USER-003", 250, "USD")]
  {
    var d := DemoWallets();
    var w1 := Wallet("WAL-001", "USER-001", 10_000, "USD");
    var w2 := Wallet("WAL-002", "USER-002", 5_000, "USD");
    var w3 := Wallet("WAL-003", "USER-003", 250, "USD");
    assert d[..1][..0] == [];
    assert Seeded(d[..1]) == map["WAL-001" := w1];
    assert d[..2][..1] == d[..1];
    assert Seeded(d[..2]) == map["WAL-001" := w1, "WAL-002" := w2];
    assert d[..3][..2] == d[..2];
    assert d[..3] == d;
    assert Seeded(d) == map["WAL-001" := w1, "WAL-002" := w2, "WAL-003" := w3];
  }

  /** What the seed rules admit: each wallet sits under its own id and has a balance of at least zero. */
  ghost predicate OnlyCreatedWallets(wallets: map<string, Wallet>) {
    forall id :: id in wallets ==> wallets[id].walletId == id && wallets[id].balance >= 0
  }

  /** Whatever the seed list, only props that `Wallet.create` accepts reach the map. */
  lemma {:induction false} SeededHoldsOnlyCreatedWallets(props: seq<WalletProps>)
    ensures OnlyCreatedWallets(Seeded(props))
    ensures forall id :: id in Seeded(props) ==>
      exists i :: 0 <= i < |props| && props[i].walletId == id && props[i].balance >= 0
    decreases |props|
  {
    if props != [] {
      var q := props[..|props| - 1];
      SeededHoldsOnlyCreatedWallets(q);
      forall id | id in Seeded(props)
        ensures exists i :: 0 <= i < |props| && props[i].walletId == id && props[i].balance >= 0
      {
        if id in Seeded(q) {
          var i :| 0 <= i < |q| && q[i].walletId == id && q[i].balance >= 0;
          assert props[i] == q[i];
        } else {
          assert props[|props| - 1].walletId == id;
        }
      }
    }
  }

  class WalletRepository {
    var wallets: map<string, Wallet>

    ghost predicate Valid()
      reads this
    {
      OnlyCreatedWallets(wallets)
    }

    /** The constructor's `seedDemoData`: WAL-001, WAL-002 and WAL-003, all in USD. */
    constructor ()
      ensures Valid()
      ensures wallets == map[
        "WAL-001" := Wallet("WAL-001", "USER-001", 10_000, "USD"),
        "WAL-002" := Wallet("WAL-002", "USER-002", 5_000, "USD"),
        "WAL-003" := Wallet("WAL-003", "USER-003", 250, "USD")]
    {
      wallets := map[];
      new;
      SeedDemoData();
      DemoSeedContents();
    }

    /** `seedDemoData`: walks the demo list and stores each wallet that `Wallet.create` accepts. */
    method SeedDemoData()
      modifies this
      ensures wallets == old(wallets) + Seeded(DemoWallets())
      ensures old(Valid()) ==> Valid()
    {
      var demo := DemoWallets();
      ghost var before := wallets;
      for i := 0 to |demo|
        invariant wallets == before + Seeded(demo[..i])
      {
        assert demo[..i + 1][..i] == demo[..i];
        var result := Create(demo[i]);
        if result.success && result.value.Some? {
          wallets := wallets[demo[i].walletId := result.value.value];
        }
      }
      assert demo[..|demo|] == demo;
      SeededHoldsOnlyCreatedWallets(demo);
    }

    /** `findById`: the stored wallet for a known id, null for any other; nothing is written. */
    method FindById(walletId: string) returns (w: Option<Wallet>)
      ensures w.Some? <==> walletId in wallets
      ensures w.Some? ==> w.value == wallets[walletId]
      ensures Valid() && w.Some? ==> w.value.walletId == walletId && w.value.balance >= 0
    {
      if walletId in wallets {
        w := Some(wallets[walletId]);
      } else {
        w := None;
      }
    }
  }
}
