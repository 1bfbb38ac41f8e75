/**
  The category and account editor of the settings page: two lists of records,
  the text fields of the "new category" and "new account" dialogs, and the
  handlers that add an entry (only when the typed name is not blank) and
  delete every entry with a given id.
 */
module Settings {
  import opened Lists

  datatype Category = Category(id: int, name: string)

  datatype Account = Account(id: int, name: string, currency: string)

  /**
    The characters `String.prototype.trim` removes: ECMAScript's WhiteSpace
    (tab, vertical tab, form feed, the byte order mark and the space
    separators) and LineTerminator (line feed, carriage return, line and
    paragraph separators).
   */
  predicate IsWhiteSpace(c: char)
  {
    c == '\t' || c == '\n' || c == '\U{000B}' || c == '\U{000C}' || c == '\r'
    || c == ' ' || c == '\U{00A0}' || c == '\U{1680}'
    || ('\U{2000}' <= c <= '\U{200A}')
    || c == '\U{2028}' || c == '\U{2029}' || c == '\U{202F}' || c == '\U{205F}'
    || c == '\U{3000}' || c == '\U{FEFF}'
  }

  /** `s` without its longest all-white-space prefix. */
  function TrimStart(s: string): (r: string)
    ensures |r| <= |s| && r == s[|s| - |r|..]
    ensures forall i :: 0 <= i < |s| - |r| ==> IsWhiteSpace(s[i])
    ensures r != [] ==> !IsWhiteSpace(r[0])
  {
    if s != [] && IsWhiteSpace(s[0]) then TrimStart(s[1..]) else s
  }

  /** `s` without its longest all-white-space suffix. */
  function TrimEnd(s: string): (r: string)
    ensures |r| <= |s| && r == s[..|r|]
    ensures forall i :: |r| <= i < |s| ==> IsWhiteSpace(s[i])
    ensures r != [] ==> !IsWhiteSpace(r[|r| - 1])
  {
    if s != [] && IsWhiteSpace(s[|s| - 1]) then TrimEnd(s[..|s| - 1]) else s
  }

  /**
    `String.prototype.trim`: white space removed from both ends. The result
    is empty exactly when every character of `s` is white space; otherwise
    it starts and ends with a character that is not.
   */
  function Trim(s: string): (r: string)
    ensures r == [] <==> forall i :: 0 <= i < |s| ==> IsWhiteSpace(s[i])
    ensures r != [] ==> !IsWhiteSpace(r[0]) && !IsWhiteSpace(r[|r| - 1])
  {
    var t := TrimStart(s);
    assert t != [] ==> TrimEnd(t) != [] && s[|s| - |t|] == t[0];
    TrimEnd(t)
  }

  /** A name the add handlers refuse: `trim()` yields the empty, falsy string. */
  predicate IsBlank(s: string)
  {
    Trim(s) == []
  }

  function CategoryId(c: Category): int { c.id }

  function AccountId(a: Account): int { a.id }

  /** The predicate "the id of x is not `id`", the callback of the delete handlers' `filter`. */
  function IdIsNot<T>(idOf: T -> int, id: int): T -> bool
  {
    x => idOf(x) != id
  }

  /** The entries of `s` whose id is not `id`, in their order. */
  function Remove<T>(s: seq<T>, idOf: T -> int, id: int): seq<T>
  {
    Keep(s, IdIsNot(idOf, id))
  }

  /**
    Deleting removes every entry with the id, however many there are, keeps
    every other entry as often as it occurred, and keeps their order.
   */
  lemma RemoveSpec<T>(s: seq<T>, idOf: T -> int, id: int)
    ensures IsSubseq(Remove(s, idOf, id), s)
    ensures forall x :: multiset(Remove(s, idOf, id))[x] == if idOf(x) == id then 0 else multiset(s)[x]
    ensures forall x :: x in Remove(s, idOf, id) <==> x in s && idOf(x) != id
  {
    KeepIsSubseq(s, IdIsNot(idOf, id));
    forall x
      ensures multiset(Remove(s, idOf, id))[x] == if idOf(x) == id then 0 else multiset(s)[x]
    {
      KeepCount(s, IdIsNot(idOf, id), x);
    }
  }

  /** Deleting an id that no entry has leaves the list as it was. */
  lemma RemoveAbsent<T>(s: seq<T>, idOf: T -> int, id: int)
    requires forall x :: x in s ==> idOf(x) != id
    ensures Remove(s, idOf, id) == s
  {
    KeepAll(s, IdIsNot(idOf, id));
  }

  /** Deleting the same id twice is deleting it once. */
  lemma RemoveTwice<T>(s: seq<T>, idOf: T -> int, id: int)
    ensures Remove(Remove(s, idOf, id), idOf, id) == Remove(s, idOf, id)
  {
    forall x | x in Remove(s, idOf, id)
      ensures idOf(x) != id
    {
      KeepCount(s, IdIsNot(idOf, id), x);
    }
    RemoveAbsent(Remove(s, idOf, id), idOf, id);
  }

  /** The lists and dialog fields of the settings page. */
  class Editor {
    var categories: seq<Category>
    var accounts: seq<Account>
    var newCategoryName: string
    var newAccountName: string
    var newAccountCurrency: string

    /** The page opens with the sample lists, empty names and the currency UZS. */
    constructor ()
      ensures categories == [Category(1, "Еда"), Category(2, "Транспорт"), Category(3, "Развлечения"), Category(4, "Услуги")]
      ensures accounts == [Account(1, "Наличные", "UZS"), Account(2, "Карта", "UZS")]
      ensures newCategoryName == "" && newAccountName == "" && newAccountCurrency == "UZS"
    {
      categories := [Category(1, "Еда"), Category(2, "Транспорт"), Category(3, "Развлечения"), Category(4, "Услуги")];
      accounts := [Account(1, "Наличные", "UZS"), Account(2, "Карта", "UZS")];
      newCategoryName := "";
      newAccountName := "";
      newAccountCurrency := "UZS";
    }

    /** Typing in the category name field. */
    method SetNewCategoryName(value: string)
      modifies this
      ensures newCategoryName == value
      ensures categories == old(categories) && accounts == old(accounts)
      ensures newAccountName == old(newAccountName) && newAccountCurrency == old(newAccountCurrency)
    {
      newCategoryName := value;
    }

    /** Typing in the account name field. */
    method SetNewAccountName(value: string)
      modifies this
      ensures newAccountName == value
      ensures categories == old(categories) && accounts == old(accounts)
      ensures newCategoryName == old(newCategoryName) && newAccountCurrency == old(newAccountCurrency)
    {
      newAccountName := value;
    }

    /** Choosing the currency of the new account. */
    method SetNewAccountCurrency(value: string)
      modifies this
      ensures newAccountCurrency == value
      ensures categories == old(categories) && accounts == old(accounts)
      ensures newCategoryName == old(newCategoryName) && newAccountName == old(newAccountName)
    {
      newAccountCurrency := value;
    }

    /**
      A name that is not blank is appended, untrimmed, with the given id, and
      the field is cleared; a blank name changes nothing. Accounts are untouched.
     */
    method AddCategory(id: int)
      modifies this
      ensures IsBlank(old(newCategoryName)) ==>
                categories == old(categories) && newCategoryName == old(newCategoryName)
      ensures !IsBlank(old(newCategoryName)) ==>
                categories == old(categories) + [Category(id, old(newCategoryName))] && newCategoryName == ""
      ensures accounts == old(accounts)
      ensures newAccountName == old(newAccountName) && newAccountCurrency == old(newAccountCurrency)
    {
      if Trim(newCategoryName) != [] {
        categories := categories + [Category(id, newCategoryName)];
        newCategoryName := "";
      }
    }

    /** Every category with the id is deleted; the others keep their order. */
    method DeleteCategory(id: int)
      modifies this
      ensures categories == Remove(old(categories), CategoryId, id)
      ensures accounts == old(accounts)
      ensures newCategoryName == old(newCategoryName)
      ensures newAccountName == old(newAccountName) && newAccountCurrency == old(newAccountCurrency)
    {
      categories := Remove(categories, CategoryId, id);
    }

    /**
      A name that is not blank becomes a new account with the chosen currency,
      appended with the given id; the name field is cleared and the currency
      stays selected. A blank name changes nothing. Categories are untouched.
     */
    method AddAccount(id: int)
      modifies this
      ensures IsBlank(old(newAccountName)) ==>
                accounts == old(accounts) && newAccountName == old(newAccountName)
      ensures !IsBlank(old(newAccountName)) ==>
                accounts == old(accounts) + [Account(id, old(newAccountName), old(newAccountCurrency))]
                && newAccountName == ""
      ensures newAccountCurrency == old(newAccountCurrency)
      ensures categories == old(categories) && newCategoryName == old(newCategoryName)
    {
      if Trim(newAccountName) != [] {
        accounts := accounts + [Account(id, newAccountName, newAccountCurrency)];
        newAccountName := "";
      }
    }

    /** Every account with the id is deleted; the others keep their order. */
    method DeleteAccount(id: int)
      modifies this
      ensures accounts == Remove(old(accounts), AccountId, id)
      ensures categories == old(categories) && newCategoryName == old(newCategoryName)
      ensures newAccountName == old(newAccountName) && newAccountCurrency == old(newAccountCurrency)
    {
      accounts := Remove(accounts, AccountId, id);
    }
  }
}
