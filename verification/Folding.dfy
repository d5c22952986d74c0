/**
 A way to keep a definition folded.  A predicate of the form `forall k: nat :: Open(t, k) ==> P`
 means P, but the verifier looks inside only where a proof mentions Open(t, 0).  The tag t names
 the definition, so that each is opened on its own.
 */
module Folding {
  predicate Open(tag: nat, k: nat) {
    true
  }

  const PAGES_OWNED := 0
  const INNER_ENTRIES := 1
  const SPACES_AGREE := 2
  const FREE_CHAIN := 3
  const POOL_SHARED := 4
  const TABLES_GREW := 5
  const UNMAPPED := 6
  const ONLY_TABLES := 7
  const PAGES_FILLED := 8
  const BYTES_WROTE := 9
  const UNITS_TILED := 10
  const BLOCKS_LIVE := 11
  const LIST_SANE := 12
  const LIST_JOINING := 13
  const LIST_RISING := 14
  const LIST_LINKED := 15
  const LIST_SEARCHED := 16
  const BLOCKS_SOUND := 17
  const BLOCKS_KEPT := 18
  const FILES_HELD := 19
  const LOCKS_RECORDED := 20
  const TOOK_IN_ORDER := 21
  const REACHABLE := 22
  const ON_RUN := 23
  const TREE_SOUND := 24
  const CACHE_COHERENT := 25
  const CACHE_HELD := 26
  const CACHE_SHOWS := 27
  const LOG_REPLAYS := 28
  const CACHE_TIED := 29
  const LOG_DISTINCT := 30
  const LOG_ADDED := 31
  const CACHE_SOUND := 32
  const LOG_COUNTED := 33
  const CACHE_CLEAN := 34
  const RUN_EXTENDS := 35
  const TWO_HELD := 36
  const BIT_SET := 37
  const ONE_LOCK := 38
  const SLOTS_SEEN := 39
  const CHANGES_LOGGED := 40
  const FILES_MOVED := 41
  const OPS_COVERED := 42
  const PAGES_SPENT := 43
  const PAGES_ENOUGH := 44
  const TABLES_ADDED := 45
  const TABLE_MISSING := 46
  const BLOCKS_ENOUGH := 47
  const PLACES_GROWN := 48
  const PLACES_SHORT := 49
}
