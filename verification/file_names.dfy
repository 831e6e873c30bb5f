/** The file-name conventions of the Drive widgets: the display title drops the final
    extension (`name.replace(/\.[^/.]+$/, "")`), and a board member's photo is named
    `<name>-<role>.<ext>`. */
module FileNames {
  import opened Text

  /** The regex `\.[^/.]+$` matches at `p`: a `.` followed by a non-empty run of characters
      other than `/` and `.` that reaches the end of the name. */
  predicate ExtensionAt(s: string, p: nat) {
    p + 1 < |s| && s[p] == '.' && forall k :: p < k < |s| ==> s[k] != '/' && s[k] != '.'
  }

  /** `s.replace(/\.[^/.]+$/, "")`: the final extension removed, if there is one. What
      is removed is always a match of the regex. */
  function StripExtension(s: string): (r: string)
    ensures r <= s
    ensures |r| < |s| ==> ExtensionAt(s, |r|)
  {
    match LastIndexOf(s, '.')
    case Some(p) =>
      if p + 1 < |s| && '/' !in s[p + 1..] then
        assert forall k :: p < k < |s| ==> s[k] == s[p + 1..][k - p - 1];
        s[..p]
      else s
    case None => s
  }

  /** An extension can only start at the last `.` of the name. */
  lemma ExtensionIsLastDot(s: string, p: nat)
    requires ExtensionAt(s, p)
    ensures LastIndexOf(s, '.') == Some(p)
  {
  }

  /** `StripExtension` removes exactly the regex match: the name is cut where `\.[^/.]+$`
      matches, and kept whole when it matches nowhere. */
  lemma StripExtensionMatchesRegex(s: string)
    ensures forall p: nat :: ExtensionAt(s, p) ==> StripExtension(s) == s[..p]
    ensures (forall p: nat :: !ExtensionAt(s, p)) <==> StripExtension(s) == s
  {
    forall p: nat | ExtensionAt(s, p) ensures StripExtension(s) == s[..p] {
      ExtensionIsLastDot(s, p);
      assert '/' !in s[p + 1..];
    }
  }

  datatype NameRole = NameRole(name: string, role: string)

  const DefaultRole := "Board Member"

  /** The name and role read from the base name `base` of the file `filename`:
      `base.split('-')`, its first piece and the rest joined back with `-`. */
  function NameRoleOfBase(base: string, filename: string): (r: NameRole)
    ensures var h := IndexOf(base, '-');
      && (h < |base| ==> r == NameRole(Trim(base[..h]), Trim(base[h + 1..])))
      && (h == |base| ==> r == NameRole(filename, DefaultRole))
  {
    var parts := Split(base, '-');
    var h := IndexOf(base, '-');
    SplitHeadRest(base, '-');
    if |parts| >= 2 then
      var name := parts[0];
      var role := Join(parts[1..], '-');
      assert name == base[..h] && role == base[h + 1..];
      NameRole(Trim(name), Trim(role))
    else
      NameRole(filename, DefaultRole)
  }

  /** `extractNameAndRole`: the name and role a board member's photo file encodes. */
  function ExtractNameAndRole(filename: string): (r: NameRole)
    ensures var base := StripExtension(filename); var h := IndexOf(base, '-');
      && (h < |base| ==> r == NameRole(Trim(base[..h]), Trim(base[h + 1..])))
      && (h == |base| ==> r == NameRole(filename, DefaultRole))
  {
    NameRoleOfBase(StripExtension(filename), filename)
  }

  /** A photo named `<name>-<role>.<ext>` gives the trimmed name and the trimmed role, the
      role keeping any hyphen and dot of its own: `Jane Doe - President.jpg` gives `Jane Doe`
      and `President`, `Ravi Kumar-Vice-President.png` gives `Ravi Kumar` and
      `Vice-President`. */
  lemma PhotoNameParts(name: string, role: string, ext: string)
    requires '-' !in name
    requires ext != [] && '/' !in ext && '.' !in ext
    ensures ExtractNameAndRole(name + "-" + role + "." + ext) == NameRole(Trim(name), Trim(role))
  {
    var base := name + "-" + role;
    var file := base + "." + ext;
    assert ExtensionAt(file, |base|) by {
      forall k | |base| < k < |file| ensures file[k] != '/' && file[k] != '.' {
        assert file[k] == ext[k - |base| - 1];
      }
    }
    StripExtensionMatchesRegex(file);
    assert file[..|base|] == base;
    assert base[|name|] == '-';
    assert IndexOf(base, '-') == |name|;
    assert base[..|name|] == name;
    assert base[|name| + 1..] == role;
  }
}
