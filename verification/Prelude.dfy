/** Types every other module shares. */
module Prelude {

  datatype Option<+T> = None | Some(value: T)

  datatype Result<+T, +E> = Ok(value: T) | Err(error: E)

  newtype byte = x: int | 0 <= x < 256

  type Bytes = seq<byte>

  /** A content hash (BLAKE3 in the daemon). It is idealised to be free of
      collisions: a hash is equal to another one exactly when the hashed bytes are. */
  datatype Hash = Hash(preimage: Bytes)

  /** The textual form of an endpoint id: 64 hexadecimal digits. */
  type PeerId = s: string | |s| == 64 witness seq(64, _ => '0')

  /** The size limit of a synchronised file, 10 MiB. */
  const MAX_FILE_SIZE: nat := 10 * 1024 * 1024

  function Lookup<K, V>(m: map<K, V>, k: K): Option<V> {
    if k in m then Some(m[k]) else None
  }
}
