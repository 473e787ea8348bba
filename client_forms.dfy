/**
 * The client's inline category rename (`saveCategoryName` in
 * public/script.js): what it does with the trimmed input before any
 * request, and the optimistic update of the cached `STATE.categories`.
 */
module ClientForms {
  import opened Wrappers
  import opened Http
  import opened JsText
  import opened Seqs
  import opened CategoryModel
  import opened CategoryRoutes

  const MaxNameLength: nat := 25

  datatype Rejection = EmptyName | TooLong

  /** Leave the card as it was, mark the input as an error, or send the `PUT` with this name. */
  datatype RenameDecision = Unchanged | Rejected(why: Rejection) | Send(name: string)

  /** The checks `saveCategoryName` makes, in order, before the request. */
  function DecideRename(newName: string, oldName: string): RenameDecision {
    if newName == oldName then Unchanged
    else if newName == "" then Rejected(EmptyName)
    else if |newName| > MaxNameLength then Rejected(TooLong)
    else Send(newName)
  }

  /** The blur handler passes `input.value.trim()`. */
  function RenameOnBlur(input: string, oldName: string): RenameDecision {
    DecideRename(Trim(input), oldName)
  }

  /**
   * Each outcome happens exactly when its condition holds: the unchanged
   * name makes no request, an empty or over-long one is rejected, and only a
   * different name of 1 to 25 characters is sent.
   */
  lemma DecideRenameExact(newName: string, oldName: string)
    ensures DecideRename(newName, oldName) == Unchanged <==> newName == oldName
    ensures DecideRename(newName, oldName) == Rejected(EmptyName) <==> newName == "" && oldName != ""
    ensures DecideRename(newName, oldName) == Rejected(TooLong) <==> newName != oldName && |newName| > MaxNameLength
    ensures DecideRename(newName, oldName).Send? <==> newName != oldName && 1 <= |newName| <= MaxNameLength
    ensures DecideRename(newName, oldName).Send? ==> DecideRename(newName, oldName).name == newName
  {
  }

  /** A trimmed string is its own trim. */
  lemma TrimIdempotent(s: string)
    ensures Trim(Trim(s)) == Trim(s)
  {
    var t := Trim(s);
    if t != [] {
      assert t[0] == TrimStart(s)[0];
      assert TrimStart(t) == t;
    }
  }

  /** A name sent from the blur handler is non-empty, at most 25 characters, and has no surrounding whitespace. */
  lemma SentNameIsTrimmed(input: string, oldName: string)
    requires RenameOnBlur(input, oldName).Send?
    ensures var n := RenameOnBlur(input, oldName).name;
            && 1 <= |n| <= MaxNameLength
            && !IsJsWhitespace(n[0]) && !IsJsWhitespace(n[|n| - 1])
            && Trim(n) == n
  {
    var t := TrimStart(input);
    var n := TrimEnd(t);
    assert RenameOnBlur(input, oldName) == Send(n);
    assert n == t[..|n|];
    assert n[0] == t[0];
    TrimIdempotent(input);
  }

  /** A name that is only whitespace is rejected, unless the old name was empty. */
  lemma BlankRejected(input: string, oldName: string)
    requires forall i :: 0 <= i < |input| ==> IsJsWhitespace(input[i])
    requires oldName != ""
    ensures RenameOnBlur(input, oldName) == Rejected(EmptyName)
  {
    assert TrimStart(input) == [];
  }

  /** A sent name is one the server applies: the `PUT` handler's `if (name)` holds for it. */
  lemma SentNameApplies(newName: string, oldName: string, c: Category)
    requires DecideRename(newName, oldName).Send?
    ensures Renamed(c, Some(newName)) == c.(name := newName)
    ensures CategoryModel.Valid(c) ==> CategoryModel.Valid(Renamed(c, Some(newName)))
  {
  }

  /** The cached `STATE.categories` the dashboard and the summaries read. */
  class CategoryCache {
    var categories: seq<Category>

    constructor (categories: seq<Category>)
      ensures this.categories == categories
    {
      this.categories := categories;
    }

    /**
     * `saveCategoryName` with the request's outcome as `requestOk`: when the
     * name is sent and the request succeeds, the first cached category with
     * that id takes the new name and nothing else changes; otherwise the
     * cache is untouched. `sent` is the body of the request, if one is made.
     */
    method SaveCategoryName(id: ObjectId, newName: string, oldName: string, requestOk: bool)
      returns (d: RenameDecision, sent: Option<string>)
      modifies this
      ensures d == DecideRename(newName, oldName)
      ensures sent.Some? <==> d.Send?
      ensures sent.Some? ==> sent.value == newName
      ensures var i := FindFirst(old(categories), (c: Category) => c.id == id);
              if d.Send? && requestOk && i >= 0 then categories == old(categories)[i := old(categories)[i].(name := newName)]
              else categories == old(categories)
    {
      d := DecideRename(newName, oldName);
      if !d.Send? {
        return d, None;
      }
      sent := Some(newName);
      if !requestOk {
        return;
      }
      var i := FindFirst(categories, (c: Category) => c.id == id);
      if i >= 0 {
        categories := categories[i := categories[i].(name := newName)];
      }
    }
  }
}
