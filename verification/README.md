# GENIE event-record history and DIS interaction list, in Dafny

This project models two sequential components of the GENIE neutrino
event-generation framework and proves what they promise.

- **`GHepRecordHistory`** (module `RecordHistory`, file `record_history.dfy`),
  the "undo" buffer of one event-generation run. It maps a processing step to
  a snapshot of the GHEP event record taken after that step ran. Key -1 holds
  the record as it was before any step ran. The class keeps the source's
  state: the `enabled` flag and a `map<int, R>` of snapshots. Its methods
  `AddSnapshot`, `PurgeHistory`, `PurgeRecentHistory` and `Copy` change that
  map in place. Each method is proved against a pure function of the old
  map (`Added`, `RecentPurged`), and the properties of the buffer are proved
  about those functions: first writer wins, a disabled history stays
  unchanged, purges compose, a rolled-back step can be snapshotted again.
  The event record is opaque: the type parameter `R`. The history and the
  live record declare it `R(!new)`, a type that holds no heap references, so
  storing a record stores an independent copy (the deep copy
  `new GHepRecord(*record)`). A null record pointer is `None`.
- **`DISInteractionListGenerator::CreateInteractionList`** (module
  `DISInteractionList`, file `dis_interaction_list.dfy`). It enumerates the
  deep-inelastic channels of a neutrino or antineutrino on a nucleus. It reads
  three optional flags (`is-CC`, `is-NC`, `is-Charm`, absent means false).
  CC wins over NC, and neither flag means no list. A probe that is not a
  neutrino or antineutrino means no list. Otherwise it walks the nucleons in
  the order proton, neutron and emits one channel per nucleon the target
  has, charm-tagged on request. An empty list comes back as the null list.
  The method keeps the source's loop over the two-element nucleon array. It
  is proved equal to the reference function `DISChannels`, and the lemmas
  state its properties.

`options.dfy` holds the `Option` type used for null pointers, absent
configuration flags and the null interaction list.

## Model

| member | source | states |
|---|---|---|
| RecordHistory.Added | src/GHEP/GHepRecordHistory.cxx:58-82 | One AddSnapshot keeps every existing entry unchanged. It adds at most the key `step`. `step` is present afterwards iff it was before or the history is enabled and the record non-null. A new step then maps to the given record. |
| RecordHistory.RecentPurged | src/GHEP/GHepRecordHistory.cxx:105-139 | The result is a sub-map of the buffer with the values unchanged. start < -1 leaves it as it was. start == -1 empties it. start >= -1 leaves only keys < start. start >= 0 keeps every old key < start. |
| RecordHistory.DisabledHistoryIgnoresSnapshots | src/GHEP/GHepRecordHistory.cxx:62 | Any sequence of AddSnapshot calls on a disabled history leaves the buffer unchanged. |
| RecordHistory.SnapshotsAreNeverOverwritten | src/GHEP/GHepRecordHistory.cxx:70-81 | No sequence of AddSnapshot calls removes or changes a stored snapshot. |
| RecordHistory.FirstWriterWins | src/GHEP/GHepRecordHistory.cxx:70-81 | After AddSnapshot(step, first) on an enabled history without `step`, any later calls leave `first` under `step`. |
| RecordHistory.RecentPurgesCompose | src/GHEP/GHepRecordHistory.cxx:116-138 | For starts >= -1, purging from s and then from t equals one purge from min(s, t). |
| RecordHistory.RerunAfterRollback | src/GHEP/GHepRecordHistory.cxx:107-110 | After PurgeRecentHistory(s) with s >= -1, step s is free: a new snapshot for it is stored. For s >= 0 the snapshots of steps before s are kept; s == -1 empties the buffer, keys below -1 included. |
| RecordHistory.GHepRecordHistory.constructor | src/GHEP/GHepRecordHistory.cxx:39-43 | A new history is empty and has the given enabled flag. |
| RecordHistory.GHepRecordHistory.Copied | src/GHEP/GHepRecordHistory.cxx:45-51 | Intended form (through `Copy`). A copy-constructed history holds exactly the other history's snapshots when enabled, and none otherwise. |
| RecordHistory.GHepRecordHistory.AddSnapshot | src/GHEP/GHepRecordHistory.cxx:58-82 | The new buffer is `Added(old buffer, enabled, step, record)`. |
| RecordHistory.GHepRecordHistory.PurgeHistory | src/GHEP/GHepRecordHistory.cxx:84-103 | The buffer is empty afterwards. |
| RecordHistory.GHepRecordHistory.PurgeRecentHistory | src/GHEP/GHepRecordHistory.cxx:105-139 | The new buffer is `RecentPurged(old buffer, start)`. The keys are selected first and erased afterwards. |
| RecordHistory.GHepRecordHistory.Copy | src/GHEP/GHepRecordHistory.cxx:141-154 | Intended form. For another history, the buffer becomes exactly that history's snapshots when enabled, and empty otherwise. Copying a history into itself leaves it empty, because of the purge that comes first. |
| RecordHistory.GHepRecordHistory.CopyAsWritten | src/GHEP/GHepRecordHistory.cxx:141-154 | As written, the loop walks `this` after the purge. The buffer ends up empty whatever `other` holds. |
| RecordHistory.CopyAsWrittenDropsSnapshots | src/GHEP/GHepRecordHistory.cxx:143-147 | Concrete case: a history holding one snapshot, copied as written, gives an empty history. |
| RecordHistory.SnapshotThenChange | src/GHEP/GHepRecordHistory.cxx:75 | A snapshot is an independent copy. For a record type without heap references (`R(!new)`), the buffer afterwards is exactly the old buffer plus the live record as it was when the snapshot was taken, under `step`, although the live record has since been changed in place. |
| DISInteractionList.FlagValue | src/EVGModules/DISInteractionListGenerator.cxx:54-59 | A flag reads true exactly when it is present and set to true. An absent flag is false. |
| DISInteractionList.SelectedType | src/EVGModules/DISInteractionListGenerator.cxx:61-68 | The type is weak CC iff is-CC is set, even when is-NC is set too. It is weak NC iff is-NC is set and is-CC is not. It is none iff neither flag is set. |
| DISInteractionList.Channel | src/EVGModules/DISInteractionListGenerator.cxx:93-104 | The channel built for a nucleon has that nucleon bound as struck nucleon, and the properties listed under IsChannelOf. |
| DISInteractionList.DISChannels | src/EVGModules/DISInteractionListGenerator.cxx:48-116 | The result is null iff no interaction type is selected, or the probe is neither a neutrino nor an antineutrino, or Z <= 0 and N <= 0. A non-null list has 1 or 2 entries. |
| DISInteractionList.CreateInteractionList | src/EVGModules/DISInteractionListGenerator.cxx:48-116 | The list built by the loop over {proton, neutron} equals `DISChannels(config, init)`. |
| DISInteractionList.ChannelsHaveSelectedProcess | src/EVGModules/DISInteractionListGenerator.cxx:93-104 | Every entry is deep-inelastic with the selected interaction type. It carries the charm tag iff is-Charm is set. Its initial state equals the input's except for the struck nucleon, which is a proton or a neutron. |
| DISInteractionList.StruckNucleonAvailability | src/EVGModules/DISInteractionListGenerator.cxx:79-91 | In a non-null list, a proton-struck entry is present iff Z > 0 and a neutron-struck entry iff N > 0. |
| DISInteractionList.ProtonChannelFirst | src/EVGModules/DISInteractionListGenerator.cxx:84-86 | For any two entries, the earlier one is proton-struck and the later one neutron-struck. So the proton comes first and no nucleon appears twice. |

`IsChannelOf(x, init, type, charm)` means all of the following:
- `x` is deep-inelastic of `type`.
- `x` is charm-tagged iff `charm`.
- The struck nucleon of `x` is a proton or a neutron.
- The initial state of `x` is `init` with that nucleon bound.

## Left out

- `Print` and `operator<<` (src/GHEP/GHepRecordHistory.cxx:32-36, 156-177) are stream formatting only.
- All `LOG` diagnostics are a write-only side channel. The places where the source reports and ignores an input are marked by comments.
- `Enabled()` reads the `GHEPHISTENABLE` environment variable (src/GHEP/GHepRecordHistory.cxx:179-182). That is environment I/O; the flag is a constructor argument instead.
- The copy constructor calls `Copy` before it sets `fIsEnabled` (src/GHEP/GHepRecordHistory.cxx:48-50). With `Copy` iterating its argument, the `AddSnapshot` calls would read `fIsEnabled` (:62) before :50 sets it; the `Copy` as written never calls `AddSnapshot`, so it reads nothing. `Copied` sets the flag first.
- Memory ownership is not modelled: the `delete` of each snapshot in `PurgeHistory` (src/GHEP/GHepRecordHistory.cxx:96-100) and the destructor's purge. Snapshots are values, so removing an entry is the whole purge. `PurgeRecentHistory` erases its entries (:136) without deleting the snapshots they point to, so in the source those records leak; the model cannot show the difference.
- `PurgeRecentHistory` as written erases the entry under its iterator and then increments that invalidated iterator (src/GHEP/GHepRecordHistory.cxx:129-137), which is undefined behaviour in C++. The model implements the evident intent instead: select the keys, then erase them.
- `Copy` reads each key into an `unsigned int` before passing it back as `int` (src/GHEP/GHepRecordHistory.cxx:149). The model keeps the key unchanged, which is what the round trip gives on two's-complement platforms.
- The entries of `std::map` are visited in ascending key order; the model erases and copies in an unspecified order. The resulting map does not depend on that order.
- Looking up a snapshot is plain indexing of the `snapshots` map. The source inherits its lookup from `std::map`, and this file defines no lookup of its own.
- The internal structure of `GHepRecord` (the particle graph) is not modelled: the record is the opaque type `R`.
- `pdg::IsNeutrino` and `pdg::IsAntiNeutrino` are defined in PDG/PDGUtils, which is not part of this model. Here they are defined on the PDG codes ±12, ±14 and ±16, and no proof depends on that choice.
- The configuration registry and `FindConfig` (src/EVGModules/DISInteractionListGenerator.cxx:40) are not modelled. The configuration is three optional booleans.
- `ProcessInfo`, `XclsTag` and `Interaction` keep only the fields this generator sets: the scattering and interaction types, the charm flag of the exclusive tag, and the initial state with process and tag. Their other fields (the rest of the exclusive-tag content, kinematics and the like) are not modelled.
- `Target` holds only Z, N and the struck nucleon. `InteractionList` ownership and heap allocation are not modelled: the list is a `seq`.
- src/EVGModules/QELPrimaryLeptonGenerator.h is a class declaration whose `ProcessEventRecord` has no body in the files modelled. Its physics content (lepton kinematics) is not part of this model.

## Findings

| source | as written | input that shows it | evidently intended | confidence | as-written member | corrected member |
|---|---|---|---|---|---|---|
| src/GHEP/GHepRecordHistory.cxx:143-147 | After purging `this`, the loop iterates `this->begin()` to `this->end()` instead of the argument `history`, so it copies nothing | an enabled history holding a snapshot under step 0, copied into an enabled history: the copy is empty (RecordHistory.CopyAsWrittenDropsSnapshots) | iterate the argument, so the copy holds the same snapshots | high (not executed) | RecordHistory.GHepRecordHistory.CopyAsWritten | RecordHistory.GHepRecordHistory.Copy |
