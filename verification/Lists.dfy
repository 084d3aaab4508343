/** Lists, of numbered things for the most part. */
module Lists {
  /** A list with the first occurrence of something taken out. */
  function Without(ids: seq<nat>, id: nat): (rest: seq<nat>)
    ensures forall x :: x in rest ==> x in ids
    ensures |rest| <= |ids|
  {
    if ids == [] then [] else if ids[0] == id then ids[1..] else [ids[0]] + Without(ids[1..], id)
  }

  lemma Associates<T>(a: seq<T>, b: seq<T>, c: seq<T>)
    ensures a + b + c == a + (b + c)
  {
  }
}
