/**
 * A directory that holds one file per entry of a map, for any way of naming and printing entries
 * whose names never collide.
 */
module KeyedFiles {
  import opened Bytes

  datatype FileKey = FileKey(primary: string, secondary: string, name: string)

  type Files = map<FileKey, seq<Byte>>

  ghost predicate Injective<K(!new)>(name: K -> FileKey) {
    forall a, b :: name(a) == name(b) ==> a == b
  }

  ghost predicate Apart<K(!new), L(!new)>(name: K -> FileKey, other: L -> FileKey) {
    forall a, b :: name(a) != other(b)
  }

  ghost function Image<K(!new), V>(m: map<K, V>, name: K -> FileKey, enc: V -> seq<Byte>): Files
    requires Injective(name)
  {
    map k | k in m :: name(k) := enc(m[k])
  }

  lemma ImageAt<K(!new), V>(m: map<K, V>, name: K -> FileKey, enc: V -> seq<Byte>, k: K)
    requires Injective(name)
    ensures name(k) in Image(m, name, enc) <==> k in m
    ensures k in m ==> Image(m, name, enc)[name(k)] == enc(m[k])
  {
  }

  lemma ImagePut<K(!new), V>(m: map<K, V>, name: K -> FileKey, enc: V -> seq<Byte>, k: K, v: V)
    requires Injective(name)
    ensures Image(m[k := v], name, enc) == Image(m, name, enc)[name(k) := enc(v)]
  {
  }

  lemma ImageDelete<K(!new), V>(m: map<K, V>, name: K -> FileKey, enc: V -> seq<Byte>, k: K)
    requires Injective(name)
    ensures Image(m - {k}, name, enc) == Image(m, name, enc) - {name(k)}
  {
  }

  /** Two maps printed side by side under names that never meet. */
  ghost function Union<K(!new), V, L(!new), W>(
      m: map<K, V>, name: K -> FileKey, enc: V -> seq<Byte>,
      n: map<L, W>, other: L -> FileKey, show: W -> seq<Byte>): Files
    requires Injective(name) && Injective(other) && Apart(name, other)
  {
    Image(m, name, enc) + Image(n, other, show)
  }

  lemma UnionCommutes<K(!new), V, L(!new), W>(
      m: map<K, V>, name: K -> FileKey, enc: V -> seq<Byte>,
      n: map<L, W>, other: L -> FileKey, show: W -> seq<Byte>)
    requires Injective(name) && Injective(other) && Apart(name, other) && Apart(other, name)
    ensures Union(m, name, enc, n, other, show) == Union(n, other, show, m, name, enc)
  {
  }

  lemma UnionAt<K(!new), V, L(!new), W>(
      m: map<K, V>, name: K -> FileKey, enc: V -> seq<Byte>,
      n: map<L, W>, other: L -> FileKey, show: W -> seq<Byte>, k: K)
    requires Injective(name) && Injective(other) && Apart(name, other)
    ensures var files := Union(m, name, enc, n, other, show);
            && (name(k) in files <==> k in m)
            && (k in m ==> files[name(k)] == enc(m[k]))
  {
    ImageAt(m, name, enc, k);
    assert name(k) !in Image(n, other, show);
  }

  lemma LeftPut(a: Files, b: Files, k: FileKey, bytes: seq<Byte>)
    requires k !in b
    ensures a[k := bytes] + b == (a + b)[k := bytes]
  {
  }

  lemma LeftDelete(a: Files, b: Files, k: FileKey)
    requires k !in b
    ensures (a - {k}) + b == (a + b) - {k}
  {
  }

  lemma UnionPut<K(!new), V, L(!new), W>(
      m: map<K, V>, name: K -> FileKey, enc: V -> seq<Byte>,
      n: map<L, W>, other: L -> FileKey, show: W -> seq<Byte>, k: K, v: V)
    requires Injective(name) && Injective(other) && Apart(name, other)
    ensures Union(m[k := v], name, enc, n, other, show)
            == Union(m, name, enc, n, other, show)[name(k) := enc(v)]
  {
    ImagePut(m, name, enc, k, v);
    LeftPut(Image(m, name, enc), Image(n, other, show), name(k), enc(v));
  }

  lemma UnionDelete<K(!new), V, L(!new), W>(
      m: map<K, V>, name: K -> FileKey, enc: V -> seq<Byte>,
      n: map<L, W>, other: L -> FileKey, show: W -> seq<Byte>, k: K)
    requires Injective(name) && Injective(other) && Apart(name, other)
    ensures Union(m - {k}, name, enc, n, other, show)
            == Union(m, name, enc, n, other, show) - {name(k)}
  {
    ImageDelete(m, name, enc, k);
    LeftDelete(Image(m, name, enc), Image(n, other, show), name(k));
  }
}
