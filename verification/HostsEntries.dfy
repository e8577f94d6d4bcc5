/** Each entry a hosts line expands to expands to itself. */
module HostsEntries {
  import opened Text
  import opened RuleSyntax

  predicate IsNameChar(c: char) {
    IsAlphanumeric(c) || c == '-' || c == '.'
  }

  lemma {:induction false} NameChars(s: string)
    requires forall part :: part in Split(s, '.') ==> IsLabel(part)
    ensures s != "" && forall k :: 0 <= k < |s| ==> IsNameChar(s[k])
    decreases |s|
  {
    var i := IndexOf(s, '.', 0);
    if i < 0 {
      assert Split(s, '.') == [s] && s in Split(s, '.');
    } else {
      var head, rest := s[..i], s[i + 1..];
      assert Split(s, '.') == [head] + Split(rest, '.');
      assert head in Split(s, '.');
      forall part | part in Split(rest, '.') ensures IsLabel(part) { assert part in Split(s, '.'); }
      NameChars(rest);
      forall k | 0 <= k < |s| ensures IsNameChar(s[k]) {
        if k < i { assert s[k] == head[k]; } else if k > i { assert s[k] == rest[k - i - 1]; }
      }
    }
  }

  lemma {:induction false} FoldedIndex(s: string, from: nat)
    ensures IndexOf(Lower(s), '.', from) == IndexOf(s, '.', from)
    decreases |s| - from
  {
    if from < |s| { FoldedIndex(s, from + 1); }
  }

  lemma FoldedLabel(part: string)
    requires IsLabel(part)
    ensures IsLabel(Lower(part))
  {
    forall k | 0 <= k < |part| ensures IsAlphanumeric(Lower(part)[k]) || Lower(part)[k] == '-' {
      assert IsAlphanumeric(part[k]) || part[k] == '-';
    }
  }

  lemma {:induction false} FoldedLabels(s: string)
    requires forall part :: part in Split(s, '.') ==> IsLabel(part)
    ensures forall part :: part in Split(Lower(s), '.') ==> IsLabel(part)
    decreases |s|
  {
    var l := Lower(s);
    FoldedIndex(s, 0);
    var i := IndexOf(s, '.', 0);
    if i < 0 {
      assert s in Split(s, '.');
      FoldedLabel(s);
    } else {
      var head, rest := s[..i], s[i + 1..];
      assert Split(s, '.') == [head] + Split(rest, '.');
      assert head in Split(s, '.');
      forall part | part in Split(rest, '.') ensures IsLabel(part) { assert part in Split(s, '.'); }
      FoldedLabel(head);
      FoldedLabels(rest);
      assert l[..i] == Lower(head) && l[i + 1..] == Lower(rest);
      assert Split(l, '.') == [Lower(head)] + Split(Lower(rest), '.');
    }
  }

  /** A valid name stays valid when folded. */
  lemma FoldedName(name: string)
    requires IsValidDomainName(name)
    ensures IsValidDomainName(Lower(name))
  {
    FoldedLabels(name);
    var k :| 0 <= k < |name| && name[k] == '.';
    assert Lower(name)[k] == '.';
  }

  lemma WordsOfOne(s: string)
    requires |s| > 1 && SpacesFrom(s, 0) == 1 && WordEnd(s, 1) == |s|
    ensures Words(s) == [s[1..]]
  {
    assert s[1..|s|] == s[1..] && s[|s|..] == "";
    assert Words("") == [];
  }

  lemma SpacedName(s: string, name: string)
    requires IsNameText(name) && s == " " + name
    ensures SpacesFrom(s, 0) == 1 && WordEnd(s, 1) == |s| && '#' !in s
  {
    forall k | 1 <= k < |s| ensures !IsSpace(s[k]) && s[k] != '#' {
      assert s[k] == name[k - 1] && IsNameChar(name[k - 1]);
    }
    SpacesRead(s, 0, 1);
    WordRead(s, 1, |s|);
  }

  predicate IsNameText(name: string) {
    name != "" && forall k :: 0 <= k < |name| ==> IsNameChar(name[k])
  }

  lemma NamesOfEntry(s: string, name: string)
    requires IsNameText(name) && s == " " + name
    ensures Words(UpToHash(s)) == [name]
  {
    SpacedName(s, name);
    IndexOfAbsent(s, '#', 0);
    WordsOfOne(s);
    assert s[1..] == name;
  }

  lemma EntryAddress(address: string, name: string, entry: string)
    requires address in ADDRESSES && entry == address + " " + name
    ensures AddressOf(entry, ADDRESSES) == Some(address)
  {
    assert entry[|address|] == ' ' && entry[..|address|] == address;
    var a, b, c, d := "0.0.0.0", "127.0.0.1", "::1", "::";
    assert ADDRESSES == [a, b, c, d];
    assert address == a || address == b || address == c || address == d;
    AddressTried(entry, a, [b, c, d], address);
    assert [a] + [b, c, d] == [a, b, c, d];
    if address != a {
      AddressTried(entry, b, [c, d], address);
      assert [b] + [c, d] == [b, c, d];
      if address != b {
        AddressTried(entry, c, [d], address);
        assert [c] + [d] == [c, d];
        AddressTried(entry, d, [], address);
        assert [d] + [] == [d];
      }
    }
  }

  /** Trying one address: it is taken, or the rest decide. */
  lemma AddressTried(entry: string, first: string, rest: seq<string>, address: string)
    requires StartsWith(entry, address) && |entry| > |address| && entry[|address|] == ' '
    ensures address == first ==> AddressOf(entry, [first] + rest) == Some(first)
    ensures !StartsWith(entry, first) || (|entry| > |first| && !IsSpace(entry[|first|])) ==>
            AddressOf(entry, [first] + rest) == AddressOf(entry, rest)
  {
    assert ([first] + rest)[1..] == rest;
  }

  /** The characters no stored line may hold. */
  predicate IsControl(c: char) {
    (c < ' ' && c != '\t') || c == '\U{007F}'
  }

  lemma EntryExpands(address: string, name: string, entry: string)
    requires address in ADDRESSES && IsValidDomainName(name) && Lower(name) == name && entry == address + " " + name
    ensures IsEntry(entry)
  {
    NameChars(name);
    EntryAddress(address, name, entry);
    assert entry[|address|..] == " " + name;
    NamesOfEntry(entry[|address|..], name);
    OneEntry(address, name);
  }

  lemma OneEntry(address: string, name: string)
    requires IsValidDomainName(name) && Lower(name) == name
    ensures Entries(address, [name]) == [address + " " + name]
  {
    assert [name][1..] == [];
  }

  lemma AddressIsPlain(address: string)
    requires address in ADDRESSES
    ensures address != "" && !IsSpace(address[0]) && forall k :: 0 <= k < |address| ==> !IsControl(address[k])
  {
    assert address == "0.0.0.0" || address == "127.0.0.1" || address == "::1" || address == "::";
  }

  lemma EntryIsPlain(address: string, name: string, entry: string)
    requires address in ADDRESSES && IsNameText(name) && entry == address + " " + name
    ensures Trim(entry) == entry && forall k :: 0 <= k < |entry| ==> !IsControl(entry[k])
  {
    AddressIsPlain(address);
    assert entry[0] == address[0] && entry[|entry| - 1] == name[|name| - 1] && IsNameChar(name[|name| - 1]);
    TrimIsTrimmed(entry);
    forall k | 0 <= k < |entry| ensures !IsControl(entry[k]) {
      if k < |address| { assert entry[k] == address[k]; }
      else if k > |address| { assert entry[k] == name[k - |address| - 1] && IsNameChar(name[k - |address| - 1]); }
    }
  }

  /** A line the store takes as it is: an entry, trimmed, without control characters. */
  ghost predicate IsPlainEntry(e: string) {
    IsEntry(e) && Trim(e) == e && forall k :: 0 <= k < |e| ==> !IsControl(e[k])
  }

  lemma {:induction false} EntriesArePlain(address: string, names: seq<string>, e: string)
    requires address in ADDRESSES && e in Entries(address, names)
    ensures IsPlainEntry(e)
    decreases |names|
  {
    if IsValidDomainName(names[0]) && e == address + " " + Lower(names[0]) {
      FoldedName(names[0]);
      LowerIsIdempotent(names[0]);
      NameChars(Lower(names[0]));
      EntryExpands(address, Lower(names[0]), e);
      EntryIsPlain(address, Lower(names[0]), e);
    } else {
      EntriesArePlain(address, names[1..], e);
    }
  }

  /** What a hosts line expands to needs no further expansion. */
  lemma ExpandedArePlain(raw: string, e: string)
    requires !IsEntry(raw) && e in ExpandHostsLine(raw)
    ensures IsPlainEntry(e)
  {
    var address := AddressOf(raw, ADDRESSES).value;
    EntriesArePlain(address, Words(UpToHash(raw[|address|..])), e);
  }
}
