/**
 * The duplicated formatters: each starts an empty `String` and grows it in place with
 * successive `push_str` calls before returning it.
 */
module EntropyBad {
  import opened RustTypes
  import opened Decimal
  import Good = EntropyGood

  /** A Rust `String`: a text buffer that `push_str` grows in place. */
  class RustString {
    var contents: string

    /** `String::new()`. */
    constructor ()
      ensures contents == []
    {
      contents := [];
    }

    /** `push_str`: appends `s`; the text already there is left as it was. */
    method PushStr(s: string)
      modifies this
      ensures contents == old(contents) + s
      ensures contents[..|old(contents)|] == old(contents)
    {
      contents := contents + s;
    }
  }

  method ProcessUser(name: string, age: u32) returns (r: string)
    ensures r == Good.ProcessUser(name, age)
    ensures "User: " <= r
  {
    var result := new RustString();
    result.PushStr("User: ");
    assert result.contents == "User: ";
    result.PushStr(name);
    assert result.contents == "User: " + name;
    result.PushStr(", Age: ");
    assert result.contents == "User: " + name + ", Age: ";
    result.PushStr(Dec(age));
    assert result.contents == "User: " + name + ", Age: " + Dec(age);
    r := result.contents;
  }

  method ProcessAdmin(name: string, level: u32) returns (r: string)
    ensures r == Good.ProcessAdmin(name, level)
    ensures "Admin: " <= r
  {
    var result := new RustString();
    result.PushStr("Admin: ");
    assert result.contents == "Admin: ";
    result.PushStr(name);
    assert result.contents == "Admin: " + name;
    result.PushStr(", Level: ");
    assert result.contents == "Admin: " + name + ", Level: ";
    result.PushStr(Dec(level));
    assert result.contents == "Admin: " + name + ", Level: " + Dec(level);
    r := result.contents;
  }

  method ProcessGuest(name: string, duration: u32) returns (r: string)
    ensures r == Good.ProcessGuest(name, duration)
    ensures "Guest: " <= r
  {
    var result := new RustString();
    result.PushStr("Guest: ");
    assert result.contents == "Guest: ";
    result.PushStr(name);
    assert result.contents == "Guest: " + name;
    result.PushStr(", Duration: ");
    assert result.contents == "Guest: " + name + ", Duration: ";
    result.PushStr(Dec(duration));
    assert result.contents == "Guest: " + name + ", Duration: " + Dec(duration);
    r := result.contents;
  }

  method FormatUserDetails(name: string, email: string, id: u32) returns (r: string)
    ensures r == Good.FormatContactDetails(name, email, id)
    ensures "Name: " <= r
  {
    var details := new RustString();
    details.PushStr("Name: ");
    assert details.contents == "Name: ";
    details.PushStr(name);
    assert details.contents == "Name: " + name;
    details.PushStr(", Email: ");
    assert details.contents == "Name: " + name + ", Email: ";
    details.PushStr(email);
    assert details.contents == "Name: " + name + ", Email: " + email;
    details.PushStr(", ID: ");
    assert details.contents == "Name: " + name + ", Email: " + email + ", ID: ";
    details.PushStr(Dec(id));
    assert details.contents == "Name: " + name + ", Email: " + email + ", ID: " + Dec(id);
    r := details.contents;
  }

  method FormatAdminDetails(name: string, email: string, id: u32) returns (r: string)
    ensures r == Good.FormatContactDetails(name, email, id)
    ensures "Name: " <= r
  {
    var details := new RustString();
    details.PushStr("Name: ");
    assert details.contents == "Name: ";
    details.PushStr(name);
    assert details.contents == "Name: " + name;
    details.PushStr(", Email: ");
    assert details.contents == "Name: " + name + ", Email: ";
    details.PushStr(email);
    assert details.contents == "Name: " + name + ", Email: " + email;
    details.PushStr(", ID: ");
    assert details.contents == "Name: " + name + ", Email: " + email + ", ID: ";
    details.PushStr(Dec(id));
    assert details.contents == "Name: " + name + ", Email: " + email + ", ID: " + Dec(id);
    r := details.contents;
  }

  method FormatGuestDetails(name: string, email: string, id: u32) returns (r: string)
    ensures r == Good.FormatContactDetails(name, email, id)
    ensures "Name: " <= r
  {
    var details := new RustString();
    details.PushStr("Name: ");
    assert details.contents == "Name: ";
    details.PushStr(name);
    assert details.contents == "Name: " + name;
    details.PushStr(", Email: ");
    assert details.contents == "Name: " + name + ", Email: ";
    details.PushStr(email);
    assert details.contents == "Name: " + name + ", Email: " + email;
    details.PushStr(", ID: ");
    assert details.contents == "Name: " + name + ", Email: " + email + ", ID: ";
    details.PushStr(Dec(id));
    assert details.contents == "Name: " + name + ", Email: " + email + ", ID: " + Dec(id);
    r := details.contents;
  }

  /** The three detail formatters return the same text for the same arguments. */
  method DetailsAgree(name: string, email: string, id: u32) returns (same: bool)
    ensures same
  {
    var user := FormatUserDetails(name, email, id);
    var admin := FormatAdminDetails(name, email, id);
    var guest := FormatGuestDetails(name, email, id);
    same := user == admin && admin == guest;
  }
}
