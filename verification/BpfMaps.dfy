/** The bounded hash maps the kernel probes share. */
module BpfMaps {

  /** Insert only: refused when the key is present or the map is full. */
  function PutNew<V>(m: map<nat, V>, key: nat, value: V, capacity: nat): map<nat, V> {
    if key in m || |m| >= capacity then m else m[key := value]
  }

  /** Insert or overwrite: refused only for a new key in a full map. */
  function Put<V>(m: map<nat, V>, key: nat, value: V, capacity: nat): map<nat, V> {
    if key !in m && |m| >= capacity then m else m[key := value]
  }
}
