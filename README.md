# QtDataSync core, modelled in Dafny

QtDataSync synchronises a Qt application's data stores between devices. This
project models four small pieces of it and proves what each one promises:

- **`WelcomeMessage`** (`Messages`): the payload a device sends at handshake.
  It says whether the device has changes and can offer a new public key, with
  the key's index and its signing scheme. It also fixes the exact byte string
  that gets signed: the decimal ASCII of the key index, then the scheme, then
  the device id in the 16-byte form of section 4.1.2 of RFC 4122, then the key.
  `QString::number` and `QByteArray::number` on integers live in `Decimal`, with
  a reading function that inverts them.
- **`SyncController` result callbacks** (`Sync`): `triggerSyncWithResult` and
  `triggerResyncWithResult` connect a one-shot callback through a receiver of
  its own, then ask the engine for a pass. The callback lets `Loading` and
  `Syncing` go by. On any other state it is invoked with that state, and its
  receiver is deleted, which disconnects it. The class keeps:
  - the connected receivers, in connection order;
  - a log of registrations and triggers;
  - the engine values that `syncState()` and `authenticationError()` forward.

  `Deliver` and `Run` give the meaning of one emission and of a sequence of
  emissions. The lemmas prove that, with deletion taken as immediate, each
  callback fires exactly once, with the first state that is neither `Loading`
  nor `Syncing`.
- **`KWalletKeyStore`** (`KWalletStore`): a secret store over the desktop's
  network wallet, held as a nullable pointer.
  - The wallet is an object with an open flag, folders, a current folder,
    entries, a deletion flag and a sync count.
  - KWallet's integer result codes, and whether the wallet lets the store enter
    a folder, are parameters.
  - Every secret operation fails closed while no wallet is held.
  - Neither failed loads nor `closeStore` ever release the pointer. Later loads
    therefore report success with a wallet already scheduled for deletion.
- **`TestLib`** (`TestLib`): the test-data builders.
  - Object keys, records and JSON objects for one index.
  - Lists and keyed sets over an inclusive index range.
  - The JSON array of a keyed set's values.

## Model

| member | source | states |
|---|---|---|
| Decimal.IntToDecimal | tests/auto/datasync/TestLib/testlib.cpp:20 | `QString::number(i)` is an optional '-' followed by digits, and the '-' is there exactly when `i` is negative |
| Decimal.DecimalRoundTrip | tests/auto/datasync/TestLib/testlib.cpp:20 | reading the decimal text of `i` back gives `i` |
| Decimal.IntToDecimalInjective | tests/auto/datasync/TestLib/testlib.cpp:20 | distinct integers have distinct decimal texts |
| Decimal.ByteArrayNumber | src/messages/welcomemessage.cpp:16 | `QByteArray::number(i)` has one byte per character of the decimal text |
| Decimal.ByteArrayNumberInjective | src/messages/welcomemessage.cpp:16 | distinct integers have distinct ASCII decimal byte strings |
| Messages.ToRfc4122 | src/messages/welcomemessage.cpp:18 | a device id encodes to exactly 16 bytes, with the eight `data4` bytes last |
| Messages.Rfc4122RoundTrip | src/messages/welcomemessage.cpp:18 | decoding the 16 bytes gives back the device id |
| Messages.ToRfc4122Injective | src/messages/welcomemessage.cpp:18 | distinct device ids have distinct 16-byte encodings |
| Messages.NewWelcomeMessage | src/messages/welcomemessage.cpp:4-6 | the constructor sets `hasChanges` to its argument, and the new message offers no key update |
| Messages.HasKeyUpdate | src/messages/welcomemessage.cpp:8-11 | a key update is offered exactly when the key is not empty |
| Messages.SignatureData | src/messages/welcomemessage.cpp:13-20 | the signed data's length is the length of the key index's decimal text plus the scheme's length plus 16 plus the key's length |
| Messages.SignatureDataLayout | src/messages/welcomemessage.cpp:15-19 | the signed data starts with the ASCII decimal key index, then holds the scheme, then the device id's RFC 4122 bytes directly before the key, and ends with the key |
| Messages.KeyUpdateIsSigned | src/messages/welcomemessage.cpp:8-19 | a key update is offered exactly when bytes follow the device id in the signed data |
| Messages.SignatureDataIgnoresHasChanges | src/messages/welcomemessage.cpp:13-20 | changing `hasChanges` leaves the signed data unchanged |
| Messages.SignatureDataDistinguishesDevices | src/messages/welcomemessage.cpp:18 | with the other fields fixed, equal signed data implies equal device ids |
| Messages.SignatureDataDistinguishesKeyIndices | src/messages/welcomemessage.cpp:16 | with the other fields fixed, equal signed data implies equal key indices |
| Messages.SignatureDataFieldBoundariesNotEncoded | src/messages/welcomemessage.cpp:16-19 | the fields are concatenated without separators: key index 1 with scheme "2" signs the same bytes as key index 12 with an empty scheme |
| Sync.IsTransient | src/datasync/synccontroller.cpp:66 | the states the result callback lets pass are exactly `Loading` and `Syncing` |
| Sync.Deliver | src/datasync/synccontroller.cpp:65-70 | on `Loading` or `Syncing` one emission calls nothing and keeps every receiver; on any other state it calls every connected callback once, in connection order, with that state, and keeps none |
| Sync.Emit | src/datasync/synccontroller.cpp:65-70 | running each connected receiver's filter in turn gives the calls and remaining receivers of `Deliver` |
| Sync.DeliverInvokesOnce | src/datasync/synccontroller.cpp:66-69 | in one emission, a connected callback is invoked once with the state if that state is not transient, and otherwise not at all; a receiver that is not connected is never invoked |
| Sync.RunSkipsDisconnected | src/datasync/synccontroller.cpp:64-70 | over any sequence of state changes, a receiver that is not connected is never invoked |
| Sync.ResultCallbackFiresOnce | src/datasync/synccontroller.cpp:64-70 | over any sequence of state changes, a connected callback is invoked exactly once, with the first state that is neither `Loading` nor `Syncing`, or never if there is no such state |
| Sync.RunLeavesPending | src/datasync/synccontroller.cpp:69 | after a sequence of state changes, every receiver stays connected if no terminal state came, and none does otherwise |
| Sync.SyncController.constructor | src/datasync/synccontroller.cpp:11-26 | a new controller forwards the engine's state and error, and has no connected callbacks |
| Sync.SyncController.CurrentSyncState | src/datasync/synccontroller.cpp:30-33 | `syncState()` returns the engine's state unchanged |
| Sync.SyncController.AuthenticationError | src/datasync/synccontroller.cpp:35-38 | `authenticationError()` returns the engine's error unchanged |
| Sync.SyncController.TriggerSync | src/datasync/synccontroller.cpp:40-43 | asks the engine for a sync pass and changes nothing else |
| Sync.SyncController.TriggerSyncWithResult | src/datasync/synccontroller.cpp:45-49 | connects a callback through a fresh receiver, and does so before asking for the sync pass |
| Sync.SyncController.TriggerResync | src/datasync/synccontroller.cpp:51-54 | asks the engine for a resync pass and changes nothing else |
| Sync.SyncController.TriggerResyncWithResult | src/datasync/synccontroller.cpp:56-60 | connects a callback through a fresh receiver, and does so before asking for the resync pass |
| Sync.SyncController.SetupTriggerResult | src/datasync/synccontroller.cpp:62-71 | each registration gets a receiver of its own, distinct from every connected one, and appends it to the connected receivers |
| Sync.SyncController.EngineStateChanged | src/datasync/synccontroller.cpp:65-70 | the connected receivers' filters run on the new state: the calls made and the receivers still connected are those of `Deliver`, and the receivers stay distinct |
| Sync.TwoResultCallbacksFireTogether | src/datasync/synccontroller.cpp:62-71 | two callbacks wait through `Loading` and `Syncing`, both fire with `Synced` through different receivers, and a later `Error` reaches neither |
| KWalletStore.Wallet.HasFolder | src/plugins/keystores/kwallet/kwalletkeystore.cpp:22 | whether the wallet already has the folder |
| KWalletStore.Wallet.HasEntry | src/plugins/keystores/kwallet/kwalletkeystore.cpp:68 | whether the current folder holds an entry under the key; entries of other folders do not count |
| KWalletStore.Wallet.CreateFolder | src/plugins/keystores/kwallet/kwalletkeystore.cpp:23 | adds the folder and changes nothing else |
| KWalletStore.Wallet.SetFolder | src/plugins/keystores/kwallet/kwalletkeystore.cpp:25 | enters the folder exactly when the wallet accepts it, and reports whether it did |
| KWalletStore.Wallet.WriteEntry | src/plugins/keystores/kwallet/kwalletkeystore.cpp:58 | with result code 0 the entry of the current folder holds the value; otherwise the entries are unchanged |
| KWalletStore.Wallet.ReadEntry | src/plugins/keystores/kwallet/kwalletkeystore.cpp:72 | with result code 0 and an entry present, the value read is the stored one |
| KWalletStore.Wallet.RemoveEntry | src/plugins/keystores/kwallet/kwalletkeystore.cpp:86 | with result code 0 the entry of the current folder is gone; otherwise the entries are unchanged |
| KWalletStore.Wallet.Sync | src/plugins/keystores/kwallet/kwalletkeystore.cpp:40 | counts one more sync and changes nothing else |
| KWalletStore.Wallet.DeleteLater | src/plugins/keystores/kwallet/kwalletkeystore.cpp:41 | schedules the wallet's deletion and changes nothing else |
| KWalletStore.KWalletKeyStore.constructor | src/plugins/keystores/kwallet/kwalletkeystore.cpp:6-9 | a new store holds no wallet |
| KWalletStore.KWalletKeyStore.LoadStore | src/plugins/keystores/kwallet/kwalletkeystore.cpp:11-35 | a held pointer means success and nothing is touched; otherwise the opened wallet is stored whatever happens, and the load succeeds exactly when it is non-null, open and lets the store enter the application folder; an open wallet gains the folder if it was missing; a closed wallet, or a refused folder, schedules deletion |
| KWalletStore.KWalletKeyStore.CloseStore | src/plugins/keystores/kwallet/kwalletkeystore.cpp:37-43 | a held wallet is synced once and scheduled for deletion, and the pointer stays |
| KWalletStore.KWalletKeyStore.ContainsSecret | src/plugins/keystores/kwallet/kwalletkeystore.cpp:45-51 | false while no wallet is held; otherwise whether the current folder holds the key |
| KWalletStore.KWalletKeyStore.StoreSecret | src/plugins/keystores/kwallet/kwalletkeystore.cpp:53-61 | false while no wallet is held; otherwise true exactly when the write's code is 0, and then the entry holds the secret |
| KWalletStore.KWalletKeyStore.LoadSecret | src/plugins/keystores/kwallet/kwalletkeystore.cpp:63-79 | empty while no wallet is held, when the entry is absent, or when the read's code is not 0; otherwise the stored bytes |
| KWalletStore.KWalletKeyStore.RemoveSecret | src/plugins/keystores/kwallet/kwalletkeystore.cpp:81-89 | false while no wallet is held; otherwise true exactly when the removal's code is 0, and then the entry is gone |
| KWalletStore.LoadAfterFailedLoadSucceeds | src/plugins/keystores/kwallet/kwalletkeystore.cpp:13-34 | a load that fails on a closed wallet is followed by a load that succeeds, holding the wallet scheduled for deletion |
| KWalletStore.LoadAfterCloseSucceeds | src/plugins/keystores/kwallet/kwalletkeystore.cpp:37-43 | after `closeStore` a load succeeds without reopening, holding the wallet scheduled for deletion |
| KWalletStore.StoreLoadRemoveRoundTrip | src/plugins/keystores/kwallet/kwalletkeystore.cpp:53-89 | a secret stored with code 0 is found and loaded unchanged; removing it with code 0 makes it absent |
| TestLib.GenerateKey | tests/auto/datasync/TestLib/testlib.cpp:18-21 | a generated key has the test type name and a non-empty id, which starts with '-' exactly when the index is negative |
| TestLib.GenerateKeyReadsBack | tests/auto/datasync/TestLib/testlib.cpp:18-21 | a generated key has the type name "TestData", and its id reads back as the index |
| TestLib.GenerateKeyInjective | tests/auto/datasync/TestLib/testlib.cpp:18-21 | distinct indices give distinct keys |
| TestLib.GenerateData | tests/auto/datasync/TestLib/testlib.cpp:23-26 | the record's id is the index, and its text is decimal text that reads back as the id |
| TestLib.GenerateDataJson | tests/auto/datasync/TestLib/testlib.cpp:44-50 | the object has exactly the fields "id" and "text", holding the record's id and text |
| TestLib.GenerateDataRange | tests/auto/datasync/TestLib/testlib.cpp:28-34 | the list has `to - from + 1` records (none when `from > to`), and record `k` is the record of `from + k` |
| TestLib.GenerateDataKeys | tests/auto/datasync/TestLib/testlib.cpp:36-42 | the list has as many texts as the range has indices, and text `k` is the text of the record of `from + k` |
| TestLib.KeyRangeMembers | tests/auto/datasync/TestLib/testlib.cpp:52-58 | a key is in the range's key set exactly when it is the key of an index in the range |
| TestLib.JsonRangeStep | tests/auto/datasync/TestLib/testlib.cpp:56-57 | inserting the next index adds a new key, so earlier entries are kept and the size grows by one |
| TestLib.GenerateDataJsonRange | tests/auto/datasync/TestLib/testlib.cpp:52-58 | the keys are exactly those of the range, each maps to its index's JSON object, and the size is the range's size |
| TestLib.ValuesRemove | tests/auto/datasync/TestLib/testlib.cpp:60-66 | whichever entry is taken out first, the multiset of values is that entry's value plus the values of the rest |
| TestLib.DataListJson | tests/auto/datasync/TestLib/testlib.cpp:60-66 | the array has one element per entry, and its multiset of elements is the multiset of the set's values |

## Left out

- The `SyncState` enumeration's declaration is not part of this model. The model lists Disconnected, Connecting, Handshaking, Loading, Syncing, Synced and Error. Only the distinction between `Loading`/`Syncing` and the rest matters to the callbacks.
- Messages.WelcomeMessage: the header declaring the fields is not part of this model. `keyIndex` is an unbounded integer. The constructor initialises only `hasChanges`, so the initial key index is not fixed by the code modelled; `NewWelcomeMessage` picks 0.
- Qt's queued signal connections and the event loop are left out. The controller's re-emission of the engine's `syncStateChanged` is one call of `EngineStateChanged`. `deleteLater` on a receiver is its immediate removal from the connected receivers. The engine's own behaviour is left out too, so a trigger is only logged.
- Sync.ResultCallbackFiresOnce: "exactly once" is a property of the model, where deletion disconnects at once. In Qt, `receiver->deleteLater()` (synccontroller.cpp:69) only posts a deferred delete, and the engine's signal arrives over a queued connection (synccontroller.cpp:17-19). A second terminal state already queued before the deletion runs still reaches the callback and calls the result function again.
- Sync.SyncController.TriggerSync: `QMetaObject::invokeMethod` on the engine is recorded as a `Trigger` action, not executed.
- The result function's own effects are left out. A call is recorded as a `Call` of the receiver with the state.
- KWallet's internals are left out: which wallet `openWallet` opens, result codes, folder policy. `openWallet`'s outcome is a parameter of `LoadStore`, and result codes and folder acceptance are parameters of the wallet methods. `qWarning` logging is left out too. `QCoreApplication::applicationName()` is the store's constant `applicationName`.
- KWalletStore.Wallet.CreateFolder: the folder is always added. This is an assumption about the wallet; the store ignores `createFolder`'s result and does not check it.
- KWalletStore.Wallet.WriteEntry and KWalletStore.Wallet.RemoveEntry: result code 0 means the change happened, and any other code means nothing changed. This is an assumption about the wallet, not something the store checks.
- KWalletStore.Wallet.DeleteLater: deletion is a flag; the object stays reachable, as the held pointer does in the source until the event loop runs.
- TestLib.GenerateDataJson: `QJsonValue` stores numbers as doubles. The model keeps the integer, which is exact for every `int`.
- TestLib.DataListJson: `QHash` iteration order is left out, so the result is stated as a multiset equality with the set's values.
- TestLib.GenerateDataRange, TestLib.GenerateDataKeys and TestLib.GenerateDataJsonRange: indices are unbounded integers, so `i++` at `INT_MAX` is not modelled. In the source it is signed overflow, which is undefined behaviour in C++; it happens when `to == INT_MAX`.
- TestLib's test-harness setup (`init`, `setup`, the temporary directory) is left out.
- Asynchronous data-store forwarding, the setup registry and its locking, and the mock data merger are not part of this model. Their logic is not in the files modelled.
- Signing and verifying the signature data, and the protocol around the welcome message, are left out; only the signed bytes are modelled.
