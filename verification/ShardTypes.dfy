/** Configurations, keys and migration payloads shared by the shardmaster and the sharded store. */
module ShardTypes {

  newtype Byte = i: int | 0 <= i < 256

  /** Keys and values are byte strings. */
  type Str = seq<Byte>

  /** A numbered assignment of shards to groups (0 is no group), and each group's servers. */
  datatype Config = Config(num: int, shards: seq<int>, groups: map<int, seq<string>>)

  /** What is handed over with a shard: its keys, and the requests already executed on them. */
  datatype MigrationData = MigrationData(data: map<Str, Str>, cache: map<int, Str>)

  /** The remainder of C++ integer division, which takes the sign of the dividend. */
  function Rem(a: int, n: nat): int
    requires n > 0
  {
    if a >= 0 then a % n else -((-a) % n)
  }

  /** A char is signed: bytes from 128 on are negative. */
  function SignedChar(b: Byte): int {
    if b < 128 then b as int else b as int - 256
  }

  function Key2Shard(key: Str, n: nat): int
    requires n > 0
  {
    Rem(if key == [] then 0 else SignedChar(key[0]), n)
  }

  /** The shards a configuration gives to a group. */
  function Assigned(c: Config, gid: int): set<int> {
    set i | 0 <= i < |c.shards| && c.shards[i] == gid
  }

  function Lookup(data: map<Str, Str>, key: Str): Str {
    if key in data then data[key] else []
  }
}
