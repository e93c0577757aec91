/** The strings behind the keys of the store. */
module KeyNames {
  import opened Redis

  const REFRESH := "refresh:"
  const SUBJECT := "group:sub:"
  const FAMILY := "group:family:"
  const CODE := "totp:used:"

  /** The key builders; a `jti` is its own key. */
  function Name(k: Key): string {
    match k
    case JtiKey(jti) => jti
    case RefreshKey(id) => REFRESH + id
    case GroupName(SubjectGroup(subject)) => SUBJECT + subject
    case GroupName(FamilyGroup(family)) => FAMILY + family
    case CodeKey(hash) => CODE + hash
  }

  /** The prefix a key other than a `jti` starts with. */
  function Prefix(k: Key): string
    requires !k.JtiKey?
  {
    match k
    case RefreshKey(_) => REFRESH
    case GroupName(SubjectGroup(_)) => SUBJECT
    case GroupName(FamilyGroup(_)) => FAMILY
    case CodeKey(_) => CODE
  }

  /** A text that a key builder other than the plain `jti` could have made. */
  predicate Built(name: string) {
    REFRESH <= name || SUBJECT <= name || FAMILY <= name || CODE <= name
  }

  /** No prefix is the beginning of another. */
  lemma PrefixesApart(a: Key, b: Key, name: string)
    requires !a.JtiKey? && !b.JtiKey? && Prefix(a) <= name && Prefix(b) <= name
    ensures Prefix(a) == Prefix(b)
  {
    assert Prefix(a)[0] == name[0] == Prefix(b)[0];
    assert |Prefix(a)| > 6 && |Prefix(b)| > 6 && Prefix(a)[6] == name[6] == Prefix(b)[6];
  }

  lemma NameOfBuilt(k: Key)
    requires !k.JtiKey?
    ensures Prefix(k) <= Name(k) && Built(Name(k))
  {
  }

  /** A text names a key other than a `jti` exactly when it starts with a prefix; a UUID does not. */
  lemma BuiltIff(name: string)
    ensures Built(name) <==> exists k: Key :: !k.JtiKey? && Name(k) == name
    ensures Built(name) <==> "refresh:" <= name || "group:sub:" <= name || "group:family:" <= name || "totp:used:" <= name
  {
    if REFRESH <= name {
      assert Name(RefreshKey(name[|REFRESH|..])) == name;
    } else if SUBJECT <= name {
      assert Name(GroupName(SubjectGroup(name[|SUBJECT|..]))) == name;
    } else if FAMILY <= name {
      assert Name(GroupName(FamilyGroup(name[|FAMILY|..]))) == name;
    } else if CODE <= name {
      assert Name(CodeKey(name[|CODE|..])) == name;
    }
    forall k: Key | !k.JtiKey? && Name(k) == name ensures Built(name) {
      NameOfBuilt(k);
    }
  }

  /** Different keys have different names, as long as a `jti` does not look like another kind of key. */
  lemma NamesDistinct(a: Key, b: Key)
    requires a.JtiKey? ==> !Built(a.jti)
    requires b.JtiKey? ==> !Built(b.jti)
    ensures Name(a) == Name(b) <==> a == b
  {
    if Name(a) == Name(b) {
      if a.JtiKey? || b.JtiKey? {
        BuiltIff(Name(a));
      } else {
        NameOfBuilt(a);
        NameOfBuilt(b);
        PrefixesApart(a, b, Name(a));
        assert Name(a)[|Prefix(a)|..] == Name(b)[|Prefix(b)|..];
      }
    }
  }
}
