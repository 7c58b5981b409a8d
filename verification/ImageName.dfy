/** The container name derived from an image reference (cmd/ambudctl/run.go). */
module ImageName {
  import opened Types
  import opened Text

  function BeforeFirst(s: string, c: char): string {
    var i := IndexOf(s, c);
    if i == -1 then s else s[..i]
  }

  function AfterLast(s: string, c: char): string {
    var i := LastIndexOf(s, c);
    if i == -1 then s else s[i+1..]
  }

  function BeforeLast(s: string, c: char): string {
    var i := LastIndexOf(s, c);
    if i == -1 then s else s[..i]
  }

  function DefaultName(image: string): string {
    BeforeLast(AfterLast(BeforeFirst(image, '@'), '/'), ':')
  }

  /** [ path "/" ] name [ ":" tag ] [ "@" digest ]. */
  function Reference(path: Option<string>, name: string, tag: Option<string>, digest: Option<string>): string {
    (if path.Some? then path.value + ['/'] else "")
    + name
    + (if tag.Some? then [':'] + tag.value else "")
    + (if digest.Some? then ['@'] + digest.value else "")
  }

  predicate Plain(s: string) {
    '@' !in s && '/' !in s
  }

  lemma StripDigest(full: string, digest: Option<string>)
    requires '@' !in full
    ensures BeforeFirst(full + (if digest.Some? then ['@'] + digest.value else ""), '@') == full
  {
    if digest.Some? {
      assert full + (['@'] + digest.value) == full + ['@'] + digest.value;
      IndexAfter(full, '@', digest.value);
    } else {
      assert full + "" == full;
    }
  }

  lemma StripPath(path: Option<string>, last: string)
    requires '/' !in last
    ensures AfterLast((if path.Some? then path.value + ['/'] else "") + last, '/') == last
  {
    if path.Some? {
      LastIndexBefore(path.value, '/', last);
    } else {
      assert "" + last == last;
    }
  }

  lemma StripTag(name: string, tag: Option<string>)
    requires if tag.Some? then ':' !in tag.value else ':' !in name
    ensures BeforeLast(name + (if tag.Some? then [':'] + tag.value else ""), ':') == name
  {
    if tag.Some? {
      assert name + ([':'] + tag.value) == name + [':'] + tag.value;
      LastIndexBefore(name, ':', tag.value);
    } else {
      assert name + "" == name;
    }
  }

  /** The name comes out whatever the path (registry ports and slashes included) and the
      digest contain; even a colon in it does no harm when a tag follows. */
  lemma DefaultNameIsTheName(path: Option<string>, name: string, tag: Option<string>, digest: Option<string>)
    requires path.Some? ==> '@' !in path.value
    requires Plain(name) && (tag.Some? ==> Plain(tag.value))
    requires if tag.Some? then ':' !in tag.value else ':' !in name
    ensures DefaultName(Reference(path, name, tag, digest)) == name
  {
    var prefix := if path.Some? then path.value + ['/'] else "";
    var suffix := if tag.Some? then [':'] + tag.value else "";
    assert prefix + name + suffix == prefix + (name + suffix);
    StripDigest(prefix + name + suffix, digest);
    StripPath(path, name + suffix);
    StripTag(name, tag);
  }
}
