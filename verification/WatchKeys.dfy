/** watchPathType (zk/conn.go): what a watch table entry is for. */
module WatchKeys {
  import opened Bytes

  datatype Kind = Data | Exist | Child

  datatype Key = Key(path: seq<byte>, kind: Kind)
}
