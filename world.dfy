/** Deployed contracts and the registry that holds them. */
module VmWorld {
  import opened VmOps
  import opened VmSemantics

  /** A deployed contract: its address and code never change; its storage is
      replaced only when a transaction commits. */
  class Contract {
    const address: string
    const code: Code
    var storage: Storage

    /** A new contract has empty storage and its own copy of the code (a
        sequence is a value, so the deployer cannot change it afterwards). */
    constructor (address: string, code: Code)
      ensures this.address == address && this.code == code && storage == map[]
    {
      this.address := address;
      this.code := code;
      storage := map[];
    }
  }

  /** The registry of deployed contracts, by address. */
  class World {
    var contracts: map<string, Contract>

    /** Every contract is registered under its own address; so two addresses
        never share a contract object. */
    ghost predicate Valid()
      reads this
    {
      forall a | a in contracts :: contracts[a].address == a
    }

    constructor ()
      ensures Valid() && contracts == map[]
    {
      contracts := map[];
    }

    /** The code of every deployed contract. */
    function Codes(): (codes: Codes)
      reads this
      ensures codes.Keys == contracts.Keys
    {
      map a | a in contracts :: contracts[a].code
    }

    /** The storage of every deployed contract (the read-only view of the
        world state). */
    function Storages(): (stores: Snapshot)
      reads this, contracts.Values
      ensures stores.Keys == contracts.Keys
    {
      map a | a in contracts :: contracts[a].storage
    }

    /** The contract deployed at address, if any; looking up never deploys. */
    function GetContract(address: string): (c: Option<Contract>)
      reads this
      requires Valid()
      ensures c.Some? <==> address in contracts
      ensures c.Some? ==> c.value == contracts[address] && c.value.address == address
    {
      if address in contracts then Some(contracts[address]) else None
    }

    /** Deploys code at address.  An address already in use is refused and
        nothing changes; otherwise exactly one contract is added, with empty
        storage and the given code, and every other contract is untouched. */
    method Deploy(address: string, code: Code) returns (deployed: bool)
      requires Valid()
      modifies this
      ensures Valid()
      ensures deployed <==> address !in old(contracts)
      ensures !deployed ==> contracts == old(contracts)
      ensures deployed ==>
        address in contracts && fresh(contracts[address]) &&
        contracts == old(contracts)[address := contracts[address]]
      ensures deployed ==> Codes() == old(Codes())[address := code]
      ensures deployed ==> Storages() == old(Storages())[address := map[]]
    {
      if address in contracts {
        return false;
      }
      var c := new Contract(address, code);
      contracts := contracts[address := c];
      deployed := true;
    }

    /** Commits a transaction's staged storages: every contract's storage
        becomes its staged copy; the registry itself does not change. */
    method Commit(stores: Snapshot)
      requires Valid() && stores.Keys == contracts.Keys
      modifies contracts.Values
      ensures contracts == old(contracts) && Storages() == stores
    {
      var pending := stores.Keys;
      while pending != {}
        invariant pending <= stores.Keys
        invariant forall a | a in contracts ::
          contracts[a].storage == if a in pending then old(contracts[a].storage) else stores[a]
        decreases pending
      {
        var a :| a in pending;
        contracts[a].storage := stores[a];
        pending := pending - {a};
      }
    }
  }
}
