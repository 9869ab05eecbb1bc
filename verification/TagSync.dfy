/** Keeping a contact's tag links in step with its list of tag names. */
module TagSync {
  datatype Tag = Tag(tenant: nat, name: string)

  datatype Link = Link(contact: nat, tag: nat)

  datatype Change = Added | Removed

  datatype Entry = Entry(contact: nat, change: Change, name: string)

  type Tags = map<nat, Tag>

  /** `trim().toLowerCase()` is a parameter; nothing depends on what it does. Empty results are dropped. */
  function Normalised(raw: seq<string>, normalise: string -> string): seq<string> {
    if raw == [] then [] else
      (if normalise(raw[0]) != "" then [normalise(raw[0])] else []) + Normalised(raw[1..], normalise)
  }

  /** Exactly the names that some given tag normalises to, empty ones left out. */
  lemma {:induction false} NormalisedIs(raw: seq<string>, normalise: string -> string, name: string)
    ensures name in Normalised(raw, normalise) <==> name != "" && exists r :: r in raw && normalise(r) == name
  {
    if raw != [] {
      NormalisedIs(raw[1..], normalise, name);
      assert raw == [raw[0]] + raw[1..];
    }
  }

  predicate Consistent(tags: Tags, links: set<Link>) {
    && (forall l :: l in links ==> l.tag in tags)
    && (forall i, j :: i in tags && j in tags && tags[i] == tags[j] ==> i == j)
  }

  function Names(tags: Tags, links: set<Link>, contact: nat): set<string>
    requires Consistent(tags, links)
  {
    set l | l in links && l.contact == contact :: tags[l.tag].name
  }

  ghost predicate Linked(tags: Tags, links: set<Link>, tenant: nat, contact: nat, name: string) {
    exists id :: id in tags && tags[id] == Tag(tenant, name) && Link(contact, id) in links
  }

  /** The links are what a sync to these names leaves: all of them to tags of these names, and one to the tenant's own
      tag of each. */
  ghost predicate Synced(tags: Tags, links: set<Link>, tenant: nat, contact: nat, names: seq<string>) {
    && Consistent(tags, links)
    && (forall l :: l in links && l.contact == contact ==> tags[l.tag].name in names)
    && (forall n :: n in names ==> Linked(tags, links, tenant, contact, n))
  }

  /** After a sync the linked names are exactly the normalised ones. */
  lemma SyncedNames(tags: Tags, links: set<Link>, tenant: nat, contact: nat, names: seq<string>)
    requires Synced(tags, links, tenant, contact, names)
    ensures Names(tags, links, contact) == set n | n in names
  {
    forall n | n in names ensures n in Names(tags, links, contact) {
      var id :| id in tags && tags[id] == Tag(tenant, n) && Link(contact, id) in links;
      assert Link(contact, id).contact == contact;
    }
  }

  // ---------- The activity log ----------

  function TagNames(tags: Tags, found: seq<Link>): seq<string>
    requires forall l :: l in found ==> l.tag in tags
  {
    if found == [] then [] else [tags[found[0].tag].name] + TagNames(tags, found[1..])
  }

  /** The names of `xs` that `ys` lacks, repetitions kept. */
  function Missing(xs: seq<string>, ys: seq<string>): seq<string> {
    if xs == [] then [] else (if xs[0] in ys then [] else [xs[0]]) + Missing(xs[1..], ys)
  }

  function Entries(contact: nat, change: Change, names: seq<string>): seq<Entry> {
    if names == [] then [] else
      Entries(contact, change, names[..|names| - 1]) + [Entry(contact, change, names[|names| - 1])]
  }

  /** As a set, the log says which names came and which went. A name given twice and newly added is logged twice. */
  ghost predicate LogsTheDifference(log: seq<Entry>, contact: nat, before: set<string>, names: seq<string>) {
    forall e :: e in log <==>
      && e.contact == contact
      && (if e.change == Added then e.name in names && e.name !in before else e.name in before && e.name !in names)
  }

  lemma {:induction false} TagNamesAre(tags: Tags, found: seq<Link>, n: string)
    requires forall l :: l in found ==> l.tag in tags
    ensures n in TagNames(tags, found) <==> exists l :: l in found && tags[l.tag].name == n
  {
    if found != [] {
      TagNamesAre(tags, found[1..], n);
      assert found == [found[0]] + found[1..];
    }
  }

  lemma TagNamesAreNames(tags: Tags, links: set<Link>, contact: nat, found: seq<Link>)
    requires Consistent(tags, links)
    requires forall l :: l in found <==> l in links && l.contact == contact
    ensures forall n :: n in TagNames(tags, found) <==> n in Names(tags, links, contact)
  {
    forall n ensures n in TagNames(tags, found) <==> n in Names(tags, links, contact) {
      TagNamesAre(tags, found, n);
    }
  }

  lemma {:induction false} MissingAre(xs: seq<string>, ys: seq<string>, n: string)
    ensures n in Missing(xs, ys) <==> n in xs && n !in ys
  {
    if xs != [] {
      MissingAre(xs[1..], ys, n);
      assert xs == [xs[0]] + xs[1..];
    }
  }

  lemma {:induction false} EntriesAre(contact: nat, change: Change, names: seq<string>, e: Entry)
    ensures e in Entries(contact, change, names) <==> e.contact == contact && e.change == change && e.name in names
  {
    if names != [] {
      EntriesAre(contact, change, names[..|names| - 1], e);
      assert names == names[..|names| - 1] + [names[|names| - 1]];
    }
  }

  lemma DifferenceIsLogged(contact: nat, before: seq<string>, names: seq<string>)
    ensures LogsTheDifference(
              Entries(contact, Added, Missing(names, before)) + Entries(contact, Removed, Missing(before, names)),
              contact, (set n | n in before), names)
  {
    var added, removed := Missing(names, before), Missing(before, names);
    forall e ensures e in Entries(contact, Added, added) + Entries(contact, Removed, removed) <==>
        && e.contact == contact
        && (if e.change == Added then e.name in names && e.name !in before else e.name in before && e.name !in names)
    {
      MissingAre(names, before, e.name);
      MissingAre(before, names, e.name);
      EntriesAre(contact, Added, added, e);
      EntriesAre(contact, Removed, removed, e);
    }
  }

  lemma SameNamesLogNothing(xs: seq<string>, ys: seq<string>)
    requires forall n :: n in xs <==> n in ys
    ensures Missing(xs, ys) == [] && Missing(ys, xs) == []
  {
    if Missing(xs, ys) != [] {
      MissingAre(xs, ys, Missing(xs, ys)[0]);
      assert false;
    }
    if Missing(ys, xs) != [] {
      MissingAre(ys, xs, Missing(ys, xs)[0]);
      assert false;
    }
  }

  lemma LogIsRight(tags: Tags, links: set<Link>, tenant: nat, contact: nat, existing: seq<Link>, names: seq<string>)
    requires Consistent(tags, links)
    requires forall l :: l in existing <==> l in links && l.contact == contact
    ensures
      var before := TagNames(tags, existing);
      var added, removed := Missing(names, before), Missing(before, names);
      && LogsTheDifference(Entries(contact, Added, added) + Entries(contact, Removed, removed),
                           contact, Names(tags, links, contact), names)
      && (Synced(tags, links, tenant, contact, names) ==> added == [] && removed == [])
  {
    var before := TagNames(tags, existing);
    TagNamesAreNames(tags, links, contact, existing);
    DifferenceIsLogged(contact, before, names);
    if Synced(tags, links, tenant, contact, names) {
      SyncedNames(tags, links, tenant, contact, names);
      assert forall n :: n in before <==> n in Names(tags, links, contact);
      SameNamesLogNothing(before, names);
    }
  }

  predicate IdsBelow(tags: Tags, nextId: nat) { forall i :: i in tags ==> i < nextId }

  class ContactsService {
    var tags: Tags
    var links: set<Link>
    var activity: seq<Entry>
    var nextId: nat

    ghost predicate Valid()
      reads this
    {
      Consistent(tags, links) && IdsBelow(tags, nextId)
    }

    constructor ()
      ensures Valid() && tags == map[] && links == {} && activity == []
    {
      tags, links, activity, nextId := map[], {}, [], 0;
    }

    method FindTag(tag: Tag) returns (id: nat, found: bool)
      requires Valid()
      ensures found ==> id in tags && tags[id] == tag
      ensures !found ==> tag !in tags.Values
    {
      var todo := tags.Keys;
      id, found := 0, false;
      while todo != {}
        invariant todo <= tags.Keys
        invariant forall i :: i in tags && i !in todo ==> tags[i] != tag
        decreases todo
      {
        var i :| i in todo;
        todo := todo - {i};
        if tags[i] == tag {
          return i, true;
        }
      }
    }

    /** The two upserts for one name. */
    method LinkTag(tenant: nat, contact: nat, name: string)
      requires Valid()
      modifies this`tags, this`links, this`nextId
      ensures Valid()
      ensures Linked(tags, links, tenant, contact, name)
      ensures forall i :: i in old(tags) ==> i in tags && tags[i] == old(tags)[i]
      ensures old(links) <= links
      ensures forall l :: l in links && l !in old(links) ==> l.contact == contact && tags[l.tag].name == name
      ensures Linked(old(tags), old(links), tenant, contact, name) ==> tags == old(tags) && links == old(links)
    {
      var tag := Tag(tenant, name);
      var id, found := FindTag(tag);
      if !found {
        id := nextId;
        tags, nextId := tags[id := tag], nextId + 1;
      }
      links := links + {Link(contact, id)};
    }

    /** The loop over the names. */
    method LinkAll(tenant: nat, contact: nat, names: seq<string>)
      requires Valid()
      modifies this`tags, this`links, this`nextId
      ensures Valid()
      ensures forall n :: n in names ==> Linked(tags, links, tenant, contact, n)
      ensures forall i :: i in old(tags) ==> i in tags && tags[i] == old(tags)[i]
      ensures old(links) <= links
      ensures forall l :: l in links && l !in old(links) ==> l.contact == contact && tags[l.tag].name in names
      ensures Synced(old(tags), old(links), tenant, contact, names) ==> tags == old(tags) && links == old(links)
    {
      var i := 0;
      while i < |names|
        invariant i <= |names| && Valid()
        invariant forall n :: n in names[..i] ==> Linked(tags, links, tenant, contact, n)
        invariant forall k :: k in old(tags) ==> k in tags && tags[k] == old(tags)[k]
        invariant old(links) <= links
        invariant forall l :: l in links && l !in old(links) ==> l.contact == contact && tags[l.tag].name in names
        invariant Synced(old(tags), old(links), tenant, contact, names) ==> tags == old(tags) && links == old(links)
      {
        assert names[..i + 1] == names[..i] + [names[i]];
        ghost var before, linksBefore := tags, links;
        LinkTag(tenant, contact, names[i]);
        forall n | n in names[..i] ensures Linked(tags, links, tenant, contact, n) {
          assert Linked(before, linksBefore, tenant, contact, n);
          var id :| id in before && before[id] == Tag(tenant, n) && Link(contact, id) in linksBefore;
          assert id in tags && tags[id] == Tag(tenant, n) && Link(contact, id) in links;
        }
        i := i + 1;
      }
      assert names[..i] == names;
    }

    /** One activity entry for each name, in order. */
    method Log(contact: nat, change: Change, names: seq<string>)
      modifies this`activity
      ensures activity == old(activity) + Entries(contact, change, names)
    {
      var i := 0;
      while i < |names|
        invariant i <= |names| && activity == old(activity) + Entries(contact, change, names[..i])
      {
        assert names[..i + 1][..i] == names[..i];
        activity := activity + [Entry(contact, change, names[i])];
        i := i + 1;
      }
      assert names[..i] == names;
    }

    /** The links of a contact, in the order the database gives them. */
    method FindLinks(contact: nat) returns (found: seq<Link>)
      requires Valid()
      ensures forall l :: l in found <==> l in links && l.contact == contact
    {
      var todo := links;
      found := [];
      while todo != {}
        invariant todo <= links
        invariant forall l :: l in found <==> l in links && l !in todo && l.contact == contact
        decreases todo
      {
        var l :| l in todo;
        todo := todo - {l};
        if l.contact == contact {
          found := found + [l];
        }
      }
    }

    /** Removing the contact's old links to other names completes the sync. */
    method Unlink(tenant: nat, contact: nat, names: seq<string>, ghost before: set<Link>)
      requires Valid()
      requires forall n :: n in names ==> Linked(tags, links, tenant, contact, n)
      requires before <= links
      requires forall l :: l in links && l !in before ==> l.contact == contact && tags[l.tag].name in names
      modifies this`links
      ensures Valid() && Synced(tags, links, tenant, contact, names)
      ensures forall l: Link :: l.contact != contact ==> (l in links <==> l in before)
      ensures links <= old(links)
      ensures (forall l :: l in old(links) && l.contact == contact ==> tags[l.tag].name in names) ==>
        links == old(links)
    {
      var toRemove := set l | l in links && l.contact == contact && tags[l.tag].name !in names;
      links := links - toRemove;
      forall n | n in names ensures Linked(tags, links, tenant, contact, n) {
        var id :| id in tags && tags[id] == Tag(tenant, n) && Link(contact, id) in old(links);
        assert Link(contact, id) !in toRemove;
      }
    }

    method LogBoth(contact: nat, added: seq<string>, removed: seq<string>)
      modifies this`activity
      ensures old(activity) <= activity
      ensures activity[|old(activity)|..] == Entries(contact, Added, added) + Entries(contact, Removed, removed)
      ensures added == [] && removed == [] ==> activity == old(activity)
    {
      Log(contact, Added, added);
      Log(contact, Removed, removed);
    }

    /** The writes to the link table. */
    method Relink(tenant: nat, contact: nat, names: seq<string>)
      requires Valid()
      modifies this`tags, this`links, this`nextId
      ensures Valid() && Synced(tags, links, tenant, contact, names)
      ensures forall l: Link :: l.contact != contact ==> (l in links <==> l in old(links))
      ensures forall i :: i in old(tags) ==> i in tags && tags[i] == old(tags)[i]
      ensures Synced(old(tags), old(links), tenant, contact, names) ==> tags == old(tags) && links == old(links)
    {
      if names == [] {
        links := set l | l in links && l.contact != contact;
      } else {
        LinkAll(tenant, contact, names);
        Unlink(tenant, contact, names, old(links));
      }
    }

    method SyncTags(tenant: nat, contact: nat, raw: seq<string>, normalise: string -> string)
      requires Valid()
      modifies this
      ensures Valid() && Synced(tags, links, tenant, contact, Normalised(raw, normalise))
      ensures forall name :: name in Names(tags, links, contact) <==>
        name != "" && exists r :: r in raw && normalise(r) == name
      ensures forall l: Link :: l.contact != contact ==> (l in links <==> l in old(links))
      ensures forall i :: i in old(tags) ==> i in tags && tags[i] == old(tags)[i]
      ensures old(activity) <= activity
      ensures LogsTheDifference(activity[|old(activity)|..], contact, Names(old(tags), old(links), contact),
                Normalised(raw, normalise))
      ensures Synced(old(tags), old(links), tenant, contact, Normalised(raw, normalise)) ==>
        tags == old(tags) && links == old(links) && activity == old(activity)
    {
      var names := Normalised(raw, normalise);
      var existing := FindLinks(contact);
      var existingNames := TagNames(tags, existing);
      var added, removed := Missing(names, existingNames), Missing(existingNames, names);
      LogIsRight(tags, links, tenant, contact, existing, names);
      Relink(tenant, contact, names);
      LogBoth(contact, added, removed);
      SyncedNames(tags, links, tenant, contact, names);
      forall name ensures name in names <==> name != "" && exists r :: r in raw && normalise(r) == name {
        NormalisedIs(raw, normalise, name);
      }
    }
  }
}
