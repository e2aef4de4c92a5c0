/** An element with its embedded hash handle, and the lists the handles form. */
module HashItem {

  /** Key bytes: the handle's key pointer together with its length. */
  type Key = string

  class Item {
    // application order
    var prev: Item?
    var next: Item?
    // bucket order
    var hhPrev: Item?
    var hhNext: Item?
    var key: Key
    var hashv: nat
    // the element around the handle: the table never changes it, a comparison may read it
    const data: string

    constructor (key: Key, data: string)
      ensures this.key == key && this.data == data
    {
      this.key, this.data := key, data;
      prev, next, hhPrev, hhNext, hashv := null, null, null, null, 0;
    }
  }

  ghost predicate Distinct(s: seq<Item>) {
    forall i, j :: 0 <= i < |s| && 0 <= j < |s| && i != j ==> s[i] != s[j]
  }

  /** The i-th item of s, or null outside s. */
  ghost function At(s: seq<Item>, i: int): Item? {
    if 0 <= i < |s| then s[i] else null
  }

  /** The application-order links of the items of s spell s. */
  ghost predicate Linked(s: seq<Item>)
    reads s`next, s`prev
  {
    && Distinct(s)
    && (forall i {:trigger s[i].next} :: 0 <= i < |s| ==> s[i].next == At(s, i + 1))
    && (forall i {:trigger s[i].prev} :: 0 <= i < |s| ==> s[i].prev == At(s, i - 1))
  }

  /** The bucket-order links of the items of s spell s. */
  ghost predicate Chained(s: seq<Item>)
    reads s`hhNext, s`hhPrev
  {
    && Distinct(s)
    && (forall i {:trigger s[i].hhNext} :: 0 <= i < |s| ==> s[i].hhNext == At(s, i + 1))
    && (forall i {:trigger s[i].hhPrev} :: 0 <= i < |s| ==> s[i].hhPrev == At(s, i - 1))
  }
}
