// The doubly linked list of gps/utils/linked_list.c: elements that point at each
// other, proved to behave as a sequence.
module LinkedLists {
  import opened Wrappers

  datatype Status = Success | FailureGeneral | UnavailableResource

  // ---------------------------------------------------------------- sequences

  /** What a search callback does with one datum: its verdict and what it sends. */
  datatype Reply<+E> = Reply(found: bool, sent: seq<E>)

  /** Position of the first datum the callback accepts, or the length if there is none. */
  function FirstMatch<T, E>(xs: seq<T>, callback: T -> Reply<E>): (k: nat)
    ensures k <= |xs|
    ensures forall j :: 0 <= j < k ==> !callback(xs[j]).found
    ensures k < |xs| ==> callback(xs[k]).found
  {
    if xs == [] then 0
    else if callback(xs[0]).found then 0
    else 1 + FirstMatch(xs[1..], callback)
  }

  /** Everything the callback sends when it is called on `xs` from left to right. */
  function Sent<T, E>(xs: seq<T>, callback: T -> Reply<E>): seq<E> {
    if xs == [] then [] else callback(xs[0]).sent + Sent(xs[1..], callback)
  }

  function Without<T>(xs: seq<T>, k: nat): seq<T>
    requires k < |xs|
  {
    xs[..k] + xs[k + 1..]
  }

  function Reverse<T>(xs: seq<T>): seq<T> {
    if xs == [] then [] else Reverse(xs[1..]) + [xs[0]]
  }

  lemma {:induction false} SentSnoc<T, E>(xs: seq<T>, callback: T -> Reply<E>, k: nat)
    requires k < |xs|
    ensures Sent(xs[..k + 1], callback) == Sent(xs[..k], callback) + callback(xs[k]).sent
  {
    if k == 0 {
      assert xs[..1] == [xs[0]];
    } else {
      SentSnoc(xs[1..], callback, k - 1);
      assert xs[..k + 1][1..] == xs[1..][..k] && xs[..k][1..] == xs[1..][..k - 1];
    }
  }

  lemma {:induction false} FirstMatchIs<T, E>(xs: seq<T>, callback: T -> Reply<E>, k: nat)
    requires k <= |xs|
    requires forall j :: 0 <= j < k ==> !callback(xs[j]).found
    requires k < |xs| ==> callback(xs[k]).found
    ensures FirstMatch(xs, callback) == k
  {
    if k > 0 {
      assert !callback(xs[0]).found;
      FirstMatchIs(xs[1..], callback, k - 1);
    }
  }

  // ---------------------------------------------------------------- the list

  class ListElement<T> {
    var next: ListElement?<T>
    var prev: ListElement?<T>
    var data: T
    const dealloc: bool  // was a deallocation function given for the data?

    constructor (data: T, dealloc: bool)
      ensures this.data == data && this.dealloc == dealloc
      ensures next == null && prev == null
    {
      this.data, this.dealloc := data, dealloc;
      next, prev := null, null;
    }
  }

  /** The element at a position, null outside the list. */
  ghost function ItemAt<T>(es: seq<ListElement<T>>, i: int): ListElement?<T> {
    if 0 <= i < |es| then es[i] else null
  }

  /** Distinct elements, each pointing at its neighbours. */
  ghost predicate Linked<T>(es: seq<ListElement<T>>)
    reads es
  {
    && (forall i, j :: 0 <= i < j < |es| ==> es[i] != es[j])
    && (forall i {:trigger es[i].next} :: 0 <= i < |es| ==> es[i].next == ItemAt(es, i + 1))
    && (forall i {:trigger es[i].prev} :: 0 <= i < |es| ==> es[i].prev == ItemAt(es, i - 1))
  }

  /** The elements hold the data, in order. */
  ghost predicate Holds<T>(es: seq<ListElement<T>>, xs: seq<T>)
    reads es
  {
    |es| == |xs| && forall i {:trigger es[i].data} {:trigger xs[i]} :: 0 <= i < |es| ==> es[i].data == xs[i]
  }

  lemma HoldsCons<T>(elem: ListElement<T>, es: seq<ListElement<T>>, xs: seq<T>)
    requires Holds(es, xs)
    ensures Holds([elem] + es, [elem.data] + xs)
  {
  }

  lemma HoldsWithout<T>(es: seq<ListElement<T>>, xs: seq<T>, k: nat)
    requires Holds(es, xs) && k < |es|
    ensures Holds(Without(es, k), Without(xs, k))
  {
  }

  /** The data that a flush hands to a deallocation function, front to back. */
  ghost function Owned<T>(es: seq<ListElement<T>>): seq<T>
    reads es
  {
    if es == [] then []
    else Owned(es[..|es| - 1]) + if es[|es| - 1].dealloc then [es[|es| - 1].data] else []
  }

  /** How many of these elements came with a deallocation function. */
  ghost function Deallocs<T>(es: seq<ListElement<T>>): nat {
    if es == [] then 0 else Deallocs(es[..|es| - 1]) + if es[|es| - 1].dealloc then 1 else 0
  }

  /** A flush hands over as many data as there are such elements, and each at its turn. */
  lemma {:induction false} OwnedAt<T>(es: seq<ListElement<T>>, i: nat)
    requires i < |es|
    ensures |Owned(es)| == Deallocs(es)
    ensures es[i].dealloc ==> Deallocs(es[..i]) < |Owned(es)| && Owned(es)[Deallocs(es[..i])] == es[i].data
  {
    var n := |es| - 1;
    if n > 0 {
      OwnedAt(es[..n], if i < n then i else 0);
      if i < n { assert es[..n][..i] == es[..i]; }
    } else {
      assert es[..0] == [];
    }
  }

  lemma {:induction false} ReverseSnoc<T>(xs: seq<T>, x: T)
    ensures Reverse(xs + [x]) == [x] + Reverse(xs)
  {
    if xs == [] {
      assert Reverse([x]) == [x];
    } else {
      ReverseSnoc(xs[1..], x);
      assert (xs + [x])[1..] == xs[1..] + [x];
    }
  }

  /** An element put before a list, with the links set, is a list. */
  lemma LinkedCons<T>(elem: ListElement<T>, es: seq<ListElement<T>>)
    requires forall i, j :: 0 <= i < j < |es| ==> es[i] != es[j]
    requires elem !in es && elem.prev == null && elem.next == ItemAt(es, 0)
    requires forall i {:trigger es[i].next} :: 0 <= i < |es| ==> es[i].next == ItemAt(es, i + 1)
    requires forall i {:trigger es[i].prev} :: 0 <= i < |es| ==>
      es[i].prev == if i == 0 then elem else es[i - 1]
    ensures Linked([elem] + es)
  {
    var now := [elem] + es;
    assert forall i {:trigger now[i]} :: 0 < i < |now| ==> now[i] == es[i - 1];
  }

  /** Elements that skip position `k` are a list of their own. */
  lemma LinkedWithout<T>(es: seq<ListElement<T>>, k: nat)
    requires k < |es|
    requires forall i, j :: 0 <= i < j < |es| ==> es[i] != es[j]
    requires forall i {:trigger es[i].next} :: 0 <= i < |es| && i != k ==>
      es[i].next == ItemAt(es, if i + 1 == k then k + 1 else i + 1)
    requires forall i {:trigger es[i].prev} :: 0 <= i < |es| && i != k ==>
      es[i].prev == ItemAt(es, if i - 1 == k then k - 1 else i - 1)
    ensures Linked(Without(es, k))
  {
    var now := Without(es, k);
    assert forall i {:trigger now[i]} :: 0 <= i < |now| ==> now[i] == es[if i < k then i else i + 1];
  }

  class LinkedList<T> {
    // What a client sees: the data, front first, and the objects the list is made of.
    ghost var Contents: seq<T>
    ghost var Repr: set<object>

    var pHead: ListElement?<T>
    var pTail: ListElement?<T>
    ghost var elements: seq<ListElement<T>>

    ghost predicate Valid()
      reads this, Repr
      ensures Valid() ==> this in Repr
    {
      && this in Repr
      && (forall e :: e in elements ==> e in Repr)
      && Linked(elements)
      && pHead == ItemAt(elements, 0)
      && pTail == ItemAt(elements, |elements| - 1)
      && Holds(elements, Contents)
    }

    // -------------------------------------------------------------- the two chains

    /** The data met by following `next` from `e`, for at most `steps` elements. */
    ghost function NextChain(e: ListElement?<T>, steps: nat): seq<T>
      reads this, elements
    {
      if e == null || e !in elements || steps == 0 then [] else [e.data] + NextChain(e.next, steps - 1)
    }

    /** The data met by following `prev` from `e`, for at most `steps` elements. */
    ghost function PrevChain(e: ListElement?<T>, steps: nat): seq<T>
      reads this, elements
    {
      if e == null || e !in elements || steps == 0 then [] else [e.data] + PrevChain(e.prev, steps - 1)
    }

    lemma {:induction false} NextChainFrom(i: nat, steps: nat)
      requires Valid() && i <= |elements| <= steps + i
      ensures NextChain(ItemAt(elements, i), steps) == Contents[i..]
      decreases steps
    {
      if i < |elements| {
        NextChainFrom(i + 1, steps - 1);
        assert elements[i].next == ItemAt(elements, i + 1);
        assert Contents[i..] == [Contents[i]] + Contents[i + 1..];
      }
    }

    lemma {:induction false} PrevChainFrom(i: int, steps: nat)
      requires Valid() && -1 <= i < |elements| && i < steps
      ensures PrevChain(ItemAt(elements, i), steps) == Reverse(Contents[..i + 1])
      decreases steps
    {
      if i >= 0 {
        assert elements[i].prev == ItemAt(elements, i - 1);
        if i > 0 {
          PrevChainFrom(i - 1, steps - 1);
        } else {
          assert PrevChain(null, steps - 1) == [];
        }
        ReverseSnoc(Contents[..i], Contents[i]);
        assert Contents[..i + 1] == Contents[..i] + [Contents[i]];
      }
    }

    /** Both chains end, and they are mirror images: however long one walks, `next`
        from the head meets the contents and `prev` from the tail meets them reversed. */
    lemma ChainsMirror(steps: nat)
      requires Valid() && |Contents| <= steps
      ensures NextChain(pHead, steps) == Contents
      ensures PrevChain(pTail, steps) == Reverse(Contents)
      ensures pHead == null <==> pTail == null
    {
      NextChainFrom(0, steps);
      PrevChainFrom(|elements| - 1, steps);
      assert Contents[0..] == Contents && Contents[..|elements|] == Contents;
    }

    // -------------------------------------------------------------- operations

    constructor ()
      ensures Valid() && fresh(Repr) && elements == [] && Contents == []
    {
      pHead, pTail := null, null;
      elements, Contents, Repr := [], [], {this};
    }

    /** Makes `elem` the head, and the tail too if there was none. */
    method Prepend(elem: ListElement<T>)
      requires Valid() && elem !in Repr && elem.prev == null
      modifies this`pHead, this`pTail, elem, elements
      ensures forall e :: e in elements ==> e.data == old(e.data) && e.next == old(e.next)
      ensures forall i {:trigger elements[i].prev} :: 0 <= i < |elements| ==>
        elements[i].prev == if i == 0 then elem else elements[i - 1]
      ensures elem.data == old(elem.data) && elem.prev == null && elem.next == ItemAt(elements, 0)
      ensures pHead == elem && pTail == if elements == [] then elem else elements[|elements| - 1]
    {
      var tmp := pHead;
      pHead := elem;
      elem.next := tmp;
      if tmp != null {
        tmp.prev := elem;
      } else {
        pTail := elem;
      }
    }

    /** Puts a new element in front. */
    method Insert(elem: ListElement<T>)
      requires Valid() && elem !in Repr && elem.prev == null
      modifies Repr, elem
      ensures Valid() && Repr == old(Repr) + {elem}
      ensures elements == [elem] + old(elements)
      ensures Contents == [old(elem.data)] + old(Contents)
    {
      Prepend(elem);
      LinkedCons(elem, elements);
      HoldsCons(elem, elements, Contents);
      elements, Contents, Repr := [elem] + elements, [elem.data] + Contents, Repr + {elem};
    }

    /** Puts the datum in front; leaves the list alone when no element can be allocated. */
    method Add(data: T, dealloc: bool, memory: bool) returns (status: Status)
      requires Valid()
      modifies Repr
      ensures Valid() && fresh(Repr - old(Repr))
      ensures status == if memory then Success else FailureGeneral
      ensures Contents == if memory then [data] + old(Contents) else old(Contents)
      ensures if memory then |elements| == |old(elements)| + 1 && elements[1..] == old(elements) && elements[0].dealloc == dealloc
              else elements == old(elements)
    {
      if !memory {
        return FailureGeneral;
      }
      var elem := new ListElement(data, dealloc);
      Insert(elem);
      return Success;
    }

    /** Takes the datum at the tail, the one added first. */
    method Remove() returns (status: Status, data: Option<T>)
      requires Valid()
      modifies Repr
      ensures Valid() && Repr == old(Repr)
      ensures old(Contents) == [] ==> status == UnavailableResource && data == None && Contents == []
      ensures old(Contents) != [] ==>
        && status == Success
        && data == Some(old(Contents)[|old(Contents)| - 1])
        && Contents == old(Contents)[..|old(Contents)| - 1]
        && elements == old(elements)[..|old(elements)| - 1]
    {
      if pTail == null {
        return UnavailableResource, None;
      }
      var tmp := pTail;
      pTail := tmp.prev;
      if pTail != null {
        pTail.next := null;
      } else {
        pHead := pTail;
      }
      elements, Contents := elements[..|elements| - 1], Contents[..|Contents| - 1];
      return Success, Some(tmp.data);
    }

    method Empty() returns (empty: bool)
      requires Valid()
      ensures empty <==> Contents == []
    {
      empty := pHead == null;
    }

    /** Empties the list; every datum that came with a deallocation function is released
        once, in list order. */
    method Flush() returns (released: seq<T>)
      requires Valid()
      modifies this
      ensures Valid() && Repr == old(Repr)
      ensures elements == [] && Contents == []
      ensures released == old(Owned(elements))
    {
      ghost var k := 0;
      released := [];
      while pHead != null
        invariant 0 <= k <= |elements| && elements == old(elements) && Repr == old(Repr)
        invariant pHead == ItemAt(elements, k)
        invariant released == Owned(elements[..k])
        decreases |elements| - k
      {
        var tmp := pHead.next;
        if pHead.dealloc {
          released := released + [pHead.data];
        }
        pHead := tmp;
        assert elements[..k + 1][..k] == elements[..k];
        k := k + 1;
      }
      assert elements[..k] == elements;
      pTail := null;
      elements, Contents := [], [];
    }

    /** The loop of a search: calls the callback from the front up to and including the
        first datum it accepts, and returns that datum's element. */
    method Locate<E>(callback: T -> Reply<E>) returns (found: ListElement?<T>, sent: seq<E>)
      requires Valid()
      ensures var k := FirstMatch(Contents, callback);
        && sent == Sent(Contents[..if k < |Contents| then k + 1 else k], callback)
        && found == ItemAt(elements, k)
        && (found == null <==> k == |Contents|)
        && (found != null ==> found.data == Contents[k])
    {
      found, sent := null, [];
      var tmp := pHead;
      ghost var k := 0;
      while tmp != null
        invariant 0 <= k <= |elements| && tmp == ItemAt(elements, k)
        invariant forall j :: 0 <= j < k ==> !callback(Contents[j]).found
        invariant sent == Sent(Contents[..k], callback)
        decreases |elements| - k
      {
        var reply := callback(tmp.data);
        sent := sent + reply.sent;
        SentSnoc(Contents, callback, k);
        if reply.found {
          FirstMatchIs(Contents, callback, k);
          return tmp, sent;
        }
        tmp := tmp.next;
        k := k + 1;
      }
      FirstMatchIs(Contents, callback, k);
    }

    /** Makes the neighbours of `tmp`, or the ends of the list, point past it. */
    method Bypass(tmp: ListElement<T>, ghost k: nat)
      requires Valid() && k < |elements| && elements[k] == tmp
      modifies this`pHead, this`pTail, elements
      ensures forall i :: 0 <= i < |elements| ==> elements[i].data == old(elements[i].data)
      ensures forall i {:trigger elements[i].next} :: 0 <= i < |elements| && i != k ==>
        elements[i].next == ItemAt(elements, if i + 1 == k then k + 1 else i + 1)
      ensures forall i {:trigger elements[i].prev} :: 0 <= i < |elements| && i != k ==>
        elements[i].prev == ItemAt(elements, if i - 1 == k then k - 1 else i - 1)
      ensures tmp.next == null && tmp.prev == null
      ensures pHead == if k == 0 then ItemAt(elements, 1) else ItemAt(elements, 0)
      ensures pTail == if k == |elements| - 1 then ItemAt(elements, k - 1) else ItemAt(elements, |elements| - 1)
    {
      assert tmp.next == ItemAt(elements, k + 1) && tmp.prev == ItemAt(elements, k - 1);
      if tmp.prev == null {
        pHead := tmp.next;
      } else {
        tmp.prev.next := tmp.next;
      }
      if tmp.next == null {
        pTail := tmp.prev;
      } else {
        tmp.next.prev := tmp.prev;
      }
      tmp.prev, tmp.next := null, null;
    }

    /** Takes the element at position `k` out of the list. */
    method Unlink(tmp: ListElement<T>, ghost k: nat)
      requires Valid() && k < |elements| && elements[k] == tmp
      modifies Repr
      ensures Valid() && Repr == old(Repr)
      ensures elements == Without(old(elements), k) && Contents == Without(old(Contents), k)
      ensures tmp.next == null && tmp.prev == null
    {
      Bypass(tmp, k);
      LinkedWithout(elements, k);
      HoldsWithout(elements, Contents, k);
      elements, Contents := Without(elements, k), Without(Contents, k);
    }

    /** Finds the first datum the callback accepts. Its element is returned if the caller
        wants the data; with `rmIfFound` it leaves the list, and its datum is released if
        the caller does not want it and it came with a deallocation function. */
    method Search<E>(callback: T -> Reply<E>, wantData: bool, rmIfFound: bool)
      returns (status: Status, found: ListElement?<T>, sent: seq<E>, released: seq<T>)
      requires Valid()
      modifies Repr
      ensures Valid() && Repr == old(Repr)
      ensures status == if old(Contents) == [] then UnavailableResource else Success
      ensures var xs, k := old(Contents), FirstMatch(old(Contents), callback);
        && sent == Sent(xs[..if k < |xs| then k + 1 else k], callback)
        && found == (if wantData then ItemAt(old(elements), k) else null)
        && (wantData ==> (found == null <==> k == |xs|))
        && Contents == (if k < |xs| && rmIfFound then Without(xs, k) else xs)
        && elements == (if k < |xs| && rmIfFound then Without(old(elements), k) else old(elements))
        && released == (if k < |xs| && rmIfFound && !wantData && old(elements)[k].dealloc then [xs[k]] else [])
    {
      found, sent, released := null, [], [];
      if pTail == null {
        return UnavailableResource, null, [], [];
      }
      status := Success;
      var tmp;
      tmp, sent := Locate(callback);
      if tmp != null {
        if wantData {
          found := tmp;
        }
        if rmIfFound {
          if !wantData && tmp.dealloc {
            released := [tmp.data];
          }
          Unlink(tmp, FirstMatch(Contents, callback));
        }
      }
    }

    /** Changes the datum of a listed element through a pointer to it. */
    method Overwrite(elem: ListElement<T>, data: T, ghost k: nat)
      requires Valid() && k < |elements| && elements[k] == elem
      modifies Repr
      ensures Valid() && Repr == old(Repr)
      ensures elements == old(elements) && Contents == old(Contents)[k := data]
    {
      elem.data := data;
      Contents := Contents[k := data];
    }
  }
}
