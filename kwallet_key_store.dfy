/**
 * The KWallet key-store plugin: a secret store that holds a pointer to the
 * desktop's network wallet, opens it lazily, enters the application's folder,
 * and guards every secret operation on the pointer being held.
 *
 * The wallet itself is an abstract object: whether it is open, its folders, its
 * entries (keyed by folder and entry name), whether its deletion has been
 * scheduled and how often it was synced. The integer result codes KWallet
 * returns, and the outcome of entering a folder, are parameters.
 */
module KWalletStore {
  import opened Decimal

  class Wallet {
    var isOpen: bool
    var folders: set<string>
    var currentFolder: string
    var entries: map<(string, string), seq<Byte>>
    var deleteScheduled: bool
    var syncs: nat

    constructor (isOpen: bool, folders: set<string>, entries: map<(string, string), seq<Byte>>)
      ensures this.isOpen == isOpen && this.folders == folders && this.entries == entries
      ensures currentFolder == "" && !deleteScheduled && syncs == 0
    {
      this.isOpen, this.folders, this.entries := isOpen, folders, entries;
      currentFolder, deleteScheduled, syncs := "", false, 0;
    }

    /** Whether the wallet has `folder`. */
    predicate HasFolder(folder: string): (r: bool)
      reads this
      ensures r <==> folder in folders
    {
      folder in folders
    }

    /** Whether the current folder holds an entry named `key`; entries of other folders do not count. */
    predicate HasEntry(key: string): (r: bool)
      reads this
      ensures r <==> (currentFolder, key) in entries
    {
      (currentFolder, key) in entries
    }

    method CreateFolder(folder: string)
      modifies this
      ensures folders == old(folders) + {folder}
      ensures isOpen == old(isOpen) && currentFolder == old(currentFolder) && entries == old(entries)
      ensures deleteScheduled == old(deleteScheduled) && syncs == old(syncs)
    {
      folders := folders + {folder};
    }

    /** Enters `folder` when the wallet accepts it (`accepted`); reports whether it did. */
    method SetFolder(folder: string, accepted: bool) returns (ok: bool)
      modifies this
      ensures ok == accepted
      ensures currentFolder == if ok then folder else old(currentFolder)
      ensures isOpen == old(isOpen) && folders == old(folders) && entries == old(entries)
      ensures deleteScheduled == old(deleteScheduled) && syncs == old(syncs)
    {
      ok := accepted;
      if ok {
        currentFolder := folder;
      }
    }

    /** Writes an entry of the current folder; result code 0 means it was written. */
    method WriteEntry(key: string, value: seq<Byte>, code: int) returns (result: int)
      modifies this
      ensures result == code
      ensures entries == if code == 0 then old(entries)[(currentFolder, key) := value] else old(entries)
      ensures isOpen == old(isOpen) && folders == old(folders) && currentFolder == old(currentFolder)
      ensures deleteScheduled == old(deleteScheduled) && syncs == old(syncs)
    {
      result := code;
      if code == 0 {
        entries := entries[(currentFolder, key) := value];
      }
    }

    /** Reads an entry of the current folder; result code 0 means `value` holds it. */
    method ReadEntry(key: string, code: int) returns (result: int, value: seq<Byte>)
      ensures result == code
      ensures code == 0 && HasEntry(key) ==> value == entries[(currentFolder, key)]
    {
      result := code;
      value := if code == 0 && HasEntry(key) then entries[(currentFolder, key)] else [];
    }

    /** Removes an entry of the current folder; result code 0 means it was removed. */
    method RemoveEntry(key: string, code: int) returns (result: int)
      modifies this
      ensures result == code
      ensures entries == if code == 0 then old(entries) - {(currentFolder, key)} else old(entries)
      ensures isOpen == old(isOpen) && folders == old(folders) && currentFolder == old(currentFolder)
      ensures deleteScheduled == old(deleteScheduled) && syncs == old(syncs)
    {
      result := code;
      if code == 0 {
        entries := entries - {(currentFolder, key)};
      }
    }

    method Sync()
      modifies this
      ensures syncs == old(syncs) + 1
      ensures isOpen == old(isOpen) && folders == old(folders) && currentFolder == old(currentFolder)
      ensures entries == old(entries) && deleteScheduled == old(deleteScheduled)
    {
      syncs := syncs + 1;
    }

    method DeleteLater()
      modifies this
      ensures deleteScheduled
      ensures isOpen == old(isOpen) && folders == old(folders) && currentFolder == old(currentFolder)
      ensures entries == old(entries) && syncs == old(syncs)
    {
      deleteScheduled := true;
    }
  }

  class KWalletKeyStore {
    /** The application name, whose folder the store keeps its secrets in. */
    const applicationName: string
    var wallet: Wallet?

    constructor (applicationName: string)
      ensures this.applicationName == applicationName && wallet == null
    {
      this.applicationName := applicationName;
      wallet := null;
    }

    /**
     * Opens the network wallet if no wallet is held. `openedWallet` is what opening
     * the wallet yields (null when it fails); `folderAccepted` whether the wallet
     * lets the store enter the application folder. Once a pointer is held the
     * store reports success without touching anything, and neither failure path
     * lets go of the pointer it has just stored.
     */
    method LoadStore(openedWallet: Wallet?, folderAccepted: bool) returns (ok: bool)
      modifies this, openedWallet
      ensures old(wallet) != null ==> ok && wallet == old(wallet)
      ensures old(wallet) != null && openedWallet != null ==> unchanged(openedWallet)
      ensures old(wallet) == null ==> wallet == openedWallet
      ensures old(wallet) == null ==> (ok <==> openedWallet != null && openedWallet.isOpen && folderAccepted)
      ensures old(wallet) == null && openedWallet != null ==>
        openedWallet.isOpen == old(openedWallet.isOpen) && openedWallet.entries == old(openedWallet.entries) && openedWallet.syncs == old(openedWallet.syncs)
      ensures old(wallet) == null && openedWallet != null && !openedWallet.isOpen ==>
        openedWallet.deleteScheduled && openedWallet.folders == old(openedWallet.folders) && openedWallet.currentFolder == old(openedWallet.currentFolder)
      ensures old(wallet) == null && openedWallet != null && openedWallet.isOpen ==>
        openedWallet.folders == old(openedWallet.folders) + {applicationName} &&
        openedWallet.deleteScheduled == (old(openedWallet.deleteScheduled) || !folderAccepted)
      ensures old(wallet) == null && ok ==> openedWallet.currentFolder == applicationName
      ensures old(wallet) == null && openedWallet != null && openedWallet.isOpen && !folderAccepted ==>
        openedWallet.currentFolder == old(openedWallet.currentFolder)
    {
      if wallet == null {
        wallet := openedWallet;
        if wallet != null {
          if !wallet.isOpen {
            wallet.DeleteLater();
            return false;
          } else {
            if !wallet.HasFolder(applicationName) {
              wallet.CreateFolder(applicationName);
            }
            var entered := wallet.SetFolder(applicationName, folderAccepted);
            if !entered {
              wallet.DeleteLater();
              return false;
            }
          }
        }
      }
      ok := wallet != null;
    }

    /** Syncs and schedules the held wallet for deletion; the pointer itself stays. */
    method CloseStore()
      modifies wallet
      ensures wallet != null ==> wallet.deleteScheduled && wallet.syncs == old(wallet.syncs) + 1
      ensures wallet != null ==> wallet.entries == old(wallet.entries) && wallet.folders == old(wallet.folders)
      ensures wallet != null ==> wallet.currentFolder == old(wallet.currentFolder) && wallet.isOpen == old(wallet.isOpen)
    {
      if wallet != null {
        wallet.Sync();
        wallet.DeleteLater();
      }
    }

    /** Whether the application folder holds `key`; false while no wallet is held. */
    function ContainsSecret(key: string): (r: bool)
      reads this, wallet
      ensures r ==> wallet != null
      ensures wallet != null ==> (r <==> (wallet.currentFolder, key) in wallet.entries)
    {
      if wallet != null then wallet.HasEntry(key) else false
    }

    method StoreSecret(key: string, secret: seq<Byte>, code: int) returns (ok: bool)
      modifies wallet
      ensures wallet == null ==> !ok
      ensures wallet != null ==> ok == (code == 0) && wallet.currentFolder == old(wallet.currentFolder)
      ensures wallet != null ==>
        wallet.entries == if ok then old(wallet.entries)[(wallet.currentFolder, key) := secret] else old(wallet.entries)
      ensures wallet != null ==> wallet.isOpen == old(wallet.isOpen) && wallet.folders == old(wallet.folders)
      ensures wallet != null ==> wallet.deleteScheduled == old(wallet.deleteScheduled) && wallet.syncs == old(wallet.syncs)
    {
      if wallet == null {
        return false;
      } else {
        var result := wallet.WriteEntry(key, secret, code);
        return result == 0;
      }
    }

    /** The secret stored under `key`; empty while no wallet is held, when absent, or when reading fails. */
    method LoadSecret(key: string, code: int) returns (secret: seq<Byte>)
      ensures wallet == null ==> secret == []
      ensures wallet != null && !wallet.HasEntry(key) ==> secret == []
      ensures wallet != null && wallet.HasEntry(key) ==>
        secret == if code == 0 then wallet.entries[(wallet.currentFolder, key)] else []
    {
      if wallet == null {
        return [];
      } else {
        if !wallet.HasEntry(key) {
          return [];
        } else {
          var result, value := wallet.ReadEntry(key, code);
          if result == 0 {
            return value;
          } else {
            return [];
          }
        }
      }
    }

    method RemoveSecret(key: string, code: int) returns (ok: bool)
      modifies wallet
      ensures wallet == null ==> !ok
      ensures wallet != null ==> ok == (code == 0) && wallet.currentFolder == old(wallet.currentFolder)
      ensures wallet != null ==>
        wallet.entries == if ok then old(wallet.entries) - {(wallet.currentFolder, key)} else old(wallet.entries)
      ensures wallet != null ==> wallet.isOpen == old(wallet.isOpen) && wallet.folders == old(wallet.folders)
      ensures wallet != null ==> wallet.deleteScheduled == old(wallet.deleteScheduled) && wallet.syncs == old(wallet.syncs)
    {
      if wallet == null {
        return false;
      } else {
        var result := wallet.RemoveEntry(key, code);
        return result == 0;
      }
    }
  }

  /**
   * A wallet that is not open makes the first load fail, yet the pointer stays
   * held: the next load reports success without opening anything, and the
   * wallet it reports is the one already scheduled for deletion.
   */
  method LoadAfterFailedLoadSucceeds(applicationName: string) returns (first: bool, second: bool, stale: bool)
    ensures !first && second && stale
  {
    var store := new KWalletKeyStore(applicationName);
    var closed := new Wallet(false, {}, map[]);
    first := store.LoadStore(closed, true);
    second := store.LoadStore(null, true);
    stale := store.wallet == closed && closed.deleteScheduled;
  }

  /** Closing the store keeps the pointer: a later load reports success without reopening. */
  method LoadAfterCloseSucceeds(applicationName: string) returns (first: bool, second: bool, stale: bool)
    ensures first && second && stale
  {
    var store := new KWalletKeyStore(applicationName);
    var w := new Wallet(true, {}, map[]);
    first := store.LoadStore(w, true);
    store.CloseStore();
    second := store.LoadStore(null, false);
    stale := store.wallet == w && w.deleteScheduled;
  }

  /** A secret stored with result code 0 is found and read back unchanged; removing it with code 0 makes it absent. */
  method StoreLoadRemoveRoundTrip(applicationName: string, key: string, secret: seq<Byte>)
    returns (stored: bool, found: bool, loaded: seq<Byte>, removed: bool, foundAfter: bool)
    ensures stored && found && loaded == secret && removed && !foundAfter
  {
    var store := new KWalletKeyStore(applicationName);
    var w := new Wallet(true, {applicationName}, map[]);
    var ok := store.LoadStore(w, true);
    stored := store.StoreSecret(key, secret, 0);
    found := store.ContainsSecret(key);
    loaded := store.LoadSecret(key, 0);
    removed := store.RemoveSecret(key, 0);
    foundAfter := store.ContainsSecret(key);
  }
}
