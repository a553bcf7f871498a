/** What an attempt sends upstream, by the last change it made to each part of the request. */
module RequestChanges {
  import opened Options
  import opened ProxyRequest

  /** Upper-case ASCII letters become lower-case ones, 32 further on; everything else stays. */
  lemma {:induction false} LowerAt(name: string, i: nat)
    requires i < |name|
    ensures |Lower(name)| == |name|
    ensures Lower(name)[i] as int == name[i] as int + if 65 <= name[i] as int <= 90 then 32 else 0
  {
    if i > 0 {
      LowerAt(name[1..], i - 1);
    } else if |name| > 1 {
      LowerAt(name[1..], 0);
    }
  }

  /** The path of a url ends where its query or its fragment begins, whichever comes first. */
  lemma {:induction false} PathEndsAtTheQuery(url: string)
    ensures Path(url) <= url && '?' !in Path(url) && '#' !in Path(url)
    ensures Path(url) != url ==> url[|Path(url)|] == '?' || url[|Path(url)|] == '#'
  {
    if url != "" && url[0] != '?' && url[0] != '#' {
      PathEndsAtTheQuery(url[1..]);
      assert url == [url[0]] + url[1..];
    }
  }

  ghost predicate SameHeader(a: Headers, b: Headers, h: string) {
    (h in a <==> h in b) && (h in a && h in b ==> a[h] == b[h])
  }

  /** A header that no change touches stays as it was. */
  lemma {:induction false} UntouchedHeaderStays(c: Content, changes: seq<Change>, h: string)
    requires forall j :: 0 <= j < |changes| ==> !Touches(changes[j], h)
    ensures SameHeader(AfterChanges(c, changes).headers, c.headers, h)
    decreases |changes|
  {
    if changes != [] {
      assert !Touches(changes[0], h);
      UntouchedHeaderStays(Changed(c, changes[0]), changes[1..], h);
    }
  }

  /** What a change to the header leaves of it: a single value or none. */
  ghost predicate Leaves(change: Change, headers: Headers, h: string) {
    if change.SetHeader? then h in headers && headers[h] == Single(change.value) else h !in headers
  }

  /** Every header is as the last change to it left it. */
  lemma {:induction false} HeaderIsAsLastChanged(c: Content, changes: seq<Change>, i: nat, h: string)
    requires i < |changes| && Touches(changes[i], h) && forall j :: i < j < |changes| ==> !Touches(changes[j], h)
    ensures Leaves(changes[i], AfterChanges(c, changes).headers, h)
    decreases |changes|
  {
    if i == 0 {
      UntouchedHeaderStays(Changed(c, changes[0]), changes[1..], h);
    } else {
      HeaderIsAsLastChanged(Changed(c, changes[0]), changes[1..], i - 1, h);
    }
  }

  /** Body, key, url and signed request stay as they were if no change sets them. */
  lemma {:induction false} UnsetPartsStay(c: Content, changes: seq<Change>)
    ensures var after := AfterChanges(c, changes);
            && ((forall j :: 0 <= j < |changes| ==> !changes[j].SetBody?) ==> after.body == c.body)
            && ((forall j :: 0 <= j < |changes| ==> !changes[j].SetKey?) ==> after.key == c.key)
            && ((forall j :: 0 <= j < |changes| ==> !changes[j].SetPath?) ==> after.url == c.url)
            && ((forall j :: 0 <= j < |changes| ==> !changes[j].SetSignedRequest?) ==> after.signedRequest == c.signedRequest)
    decreases |changes|
  {
    if changes != [] {
      UnsetPartsStay(Changed(c, changes[0]), changes[1..]);
    }
  }

  /** No later change is of the same kind as number `i`. */
  ghost predicate IsLastOfItsKind(changes: seq<Change>, i: nat)
    requires i < |changes|
  {
    forall j :: i < j < |changes| ==>
      && (changes[i].SetBody? ==> !changes[j].SetBody?) && (changes[i].SetKey? ==> !changes[j].SetKey?)
      && (changes[i].SetPath? ==> !changes[j].SetPath?) && (changes[i].SetSignedRequest? ==> !changes[j].SetSignedRequest?)
  }

  /** Body, key, url and signed request are those set last. */
  lemma {:induction false} PartIsAsLastSet(c: Content, changes: seq<Change>, i: nat)
    requires i < |changes| && IsLastOfItsKind(changes, i)
    ensures var after := AfterChanges(c, changes);
            && (changes[i].SetBody? ==> after.body == changes[i].body) && (changes[i].SetKey? ==> after.key == Some(changes[i].key))
            && (changes[i].SetPath? ==> after.url == changes[i].path)
            && (changes[i].SetSignedRequest? ==> after.signedRequest == changes[i].signed)
    decreases |changes|
  {
    if i == 0 {
      UnsetPartsStay(Changed(c, changes[0]), changes[1..]);
    } else {
      PartIsAsLastSet(Changed(c, changes[0]), changes[1..], i - 1);
    }
  }
}
