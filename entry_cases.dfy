/**
 * Worked blocks for `buildEntry`:
 *
 *   ### <title>                 ### <title>
 *   - Author: <author>          - Category: <category>
 *   - Prompt: <prompt>
 *     <more>
 *
 * The field values are left as parameters; the bullet keys are the ones a
 * prompt list writes.
 */
module EntryCases {
  import opened Strings
  import opened Syntax
  import opened Entries

  /** A key with no whitespace and no alias is stored lower-cased. */
  lemma PlainKey(key: string, lower: string)
    requires forall i | 0 <= i < |key| :: !IsSpace(key[i])
    requires ToLower(key) == lower && lower != "authorurl" && lower != "image"
    ensures FieldKey(key) == lower
  {
    LowerKeepsSpaces(key);
    RemoveSpacesSpec(ToLower(key));
    FieldKeyCases(key);
  }

  lemma AuthorLower() ensures ToLower("Author") == "author" {}
  lemma AuthorUnspaced() ensures forall i | 0 <= i < |"Author"| :: !IsSpace("Author"[i]) {}
  lemma PromptLower() ensures ToLower("Prompt") == "prompt" {}
  lemma PromptUnspaced() ensures forall i | 0 <= i < |"Prompt"| :: !IsSpace("Prompt"[i]) {}
  lemma CategoryLower() ensures ToLower("Category") == "category" {}
  lemma CategoryUnspaced() ensures forall i | 0 <= i < |"Category"| :: !IsSpace("Category"[i]) {}

  lemma AuthorKey() ensures FieldKey("Author") == "author" {
    AuthorLower();
    AuthorUnspaced();
    PlainKey("Author", "author");
  }

  lemma PromptKey() ensures FieldKey("Prompt") == "prompt" {
    PromptLower();
    PromptUnspaced();
    PlainKey("Prompt", "prompt");
  }

  lemma CategoryKey() ensures FieldKey("Category") == "category" {
    CategoryLower();
    CategoryUnspaced();
    PlainKey("Category", "category");
  }

  lemma SingleSpaceRemoved() ensures RemoveSpaces(" ") == [] {
    var sp := " ";
    assert sp[1..] == [];
  }

  /** Removing the whitespace of `a b` joins the two words. */
  lemma SpacedPair(a: string, b: string)
    requires RemoveSpaces(a) == a && RemoveSpaces(b) == b
    ensures RemoveSpaces(a + " " + b) == a + b
  {
    SingleSpaceRemoved();
    RemoveSpacesAppend(a + " ", b);
    RemoveSpacesAppend(a, " ");
    assert a + [] == a;
  }

  lemma AuthorWord() ensures RemoveSpaces("author") == "author" {
    assert forall i | 0 <= i < |"author"| :: !IsSpace("author"[i]);
    RemoveSpacesSpec("author");
  }

  lemma ImageWord() ensures RemoveSpaces("image") == "image" {
    assert forall i | 0 <= i < |"image"| :: !IsSpace("image"[i]);
    RemoveSpacesSpec("image");
  }

  lemma UrlWord() ensures RemoveSpaces("url") == "url" {
    assert forall i | 0 <= i < |"url"| :: !IsSpace("url"[i]);
    RemoveSpacesSpec("url");
  }

  lemma AuthorUrlSplit() ensures "author url" == "author" + " " + "url" {}
  lemma AuthorUrlConcat() ensures "author" + "url" == "authorurl" {}

  lemma AuthorUrlJoined() ensures RemoveSpaces("author url") == "authorurl" {
    AuthorWord();
    UrlWord();
    SpacedPair("author", "url");
    AuthorUrlSplit();
    AuthorUrlConcat();
  }

  lemma AuthorUrlLower() ensures ToLower("Author URL") == "author url" {}

  /** `Author URL` names the author link field. */
  lemma AuthorUrlSpaced() ensures FieldKey("Author URL") == "authorurl" {
    AuthorUrlLower();
    AuthorUrlJoined();
    FieldKeyCases("Author URL");
  }

  lemma CamelAuthorUrlLower() ensures ToLower("authorUrl") == "authorurl" {}
  lemma AuthorUrlUnspaced() ensures forall i | 0 <= i < |"authorurl"| :: !IsSpace("authorurl"[i]) {}

  /** So does `authorUrl`. */
  lemma AuthorUrlCamel() ensures FieldKey("authorUrl") == "authorurl" {
    CamelAuthorUrlLower();
    AuthorUrlUnspaced();
    FieldKeyCases("authorUrl");
  }

  lemma ImageLower() ensures ToLower("Image") == "image" {}
  lemma ImageUnspaced() ensures forall i | 0 <= i < |"image"| :: !IsSpace("image"[i]) {}

  /** `Image` names the image field. */
  lemma ImageAlias() ensures FieldKey("Image") == "imageurl" {
    ImageLower();
    ImageUnspaced();
    FieldKeyCases("Image");
  }

  lemma CamelImageUrlLower() ensures ToLower("imageUrl") == "imageurl" {}
  lemma ImageUrlUnspaced() ensures forall i | 0 <= i < |"imageurl"| :: !IsSpace("imageurl"[i]) {}
  lemma ImageUrlNotAlias() ensures "imageurl" != "authorurl" && "imageurl" != "image" {}

  /** So does `imageUrl`, which needs no alias. */
  lemma ImageUrlCamel() ensures FieldKey("imageUrl") == "imageurl" {
    CamelImageUrlLower();
    ImageUrlUnspaced();
    ImageUrlNotAlias();
    FieldKeyCases("imageUrl");
  }

  lemma ImageUrlLower() ensures ToLower("Image URL") == "image url" {}
  lemma ImageUrlSplit() ensures "image url" == "image" + " " + "url" {}
  lemma ImageUrlConcat() ensures "image" + "url" == "imageurl" {}

  lemma ImageUrlJoined() ensures RemoveSpaces("image url") == "imageurl" {
    ImageWord();
    UrlWord();
    SpacedPair("image", "url");
    ImageUrlSplit();
    ImageUrlConcat();
  }
  lemma ImageUrlSpacedKey() ensures "image url" !in RecordKeys {}

  /** `Image URL`, with a space, is no alias: its field is not one the record reads. */
  lemma ImageUrlSpaced() ensures FieldKey("Image URL") !in RecordKeys {
    ImageUrlLower();
    ImageUrlJoined();
    ImageUrlNotAlias();
    FieldKeyCases("Image URL");
    ImageUrlSpacedKey();
  }

  predicate IsValue(v: string) {
    NoLineTerminator(v) && IsTrimmed(v)
  }

  lemma AuthorBullet(author: string)
    requires IsValue(author)
    ensures Classify("- Author: " + author) == BulletLine("author", author)
  {
    assert "- Author: " + author == "- " + "Author" + ": " + author;
    ClassifyBullet("Author", author);
    AuthorKey();
  }

  lemma PromptBullet(prompt: string)
    requires IsValue(prompt)
    ensures Classify("- Prompt: " + prompt) == BulletLine("prompt", prompt)
  {
    assert "- Prompt: " + prompt == "- " + "Prompt" + ": " + prompt;
    ClassifyBullet("Prompt", prompt);
    PromptKey();
  }

  lemma CategoryBullet(category: string)
    requires IsValue(category)
    ensures Classify("- Category: " + category) == BulletLine("category", category)
  {
    assert "- Category: " + category == "- " + "Category" + ": " + category;
    ClassifyBullet("Category", category);
    CategoryKey();
  }

  /** The classified lines of the author-and-prompt block. */
  function AuthorPromptLines(author: string, prompt: string, more: string): seq<Line> {
    [BulletLine("author", author), BulletLine("prompt", prompt), PlainLine("  " + more)]
  }

  lemma AuthorPromptClassified(author: string, prompt: string, more: string)
    requires IsValue(author) && IsValue(prompt)
    requires more != [] && IsTrimmed(more) && more[0] != '-'
    ensures ClassifyAll(["- Author: " + author, "- Prompt: " + prompt, "  " + more])
      == AuthorPromptLines(author, prompt, more)
  {
    AuthorBullet(author);
    PromptBullet(prompt);
    ClassifyIndented(more);
    ClassifyThree("- Author: " + author, "- Prompt: " + prompt, "  " + more);
  }

  lemma ClassifyThree(a: string, b: string, c: string)
    ensures ClassifyAll([a, b, c]) == [Classify(a), Classify(b), Classify(c)]
  {
  }

  lemma ClassifyOne(a: string)
    ensures ClassifyAll([a]) == [Classify(a)]
  {
  }

  lemma AuthorPromptAuthor(title: string, author: string, prompt: string, more: string)
    ensures Get(FinalData(title, AuthorPromptLines(author, prompt, more)), "author") == author
  {
    LastBulletWins(title, AuthorPromptLines(author, prompt, more), 0, "author");
  }

  lemma AuthorPromptPrompt(title: string, author: string, prompt: string, more: string)
    requires IsValue(author) && IsValue(prompt) && prompt != ""
    requires more != [] && IsTrimmed(more) && more[0] != '-'
    ensures Get(FinalData(title, AuthorPromptLines(author, prompt, more)), "prompt") == prompt + "\n" + more
  {
    var ls := AuthorPromptLines(author, prompt, more);
    assert ls == [ls[0]] + [ls[1]] + [ls[2]];
    assert Texts([ls[2]]) == ["  " + more];
    ClassifyIndented(more);
    ContinuationJoined(title, [ls[0]], "prompt", prompt, [ls[2]]);
  }

  lemma AuthorPromptUnset(title: string, author: string, prompt: string, more: string, k: string)
    requires k in {"title", "authorurl", "category", "imageurl", "description"}
    ensures Get(FinalData(title, AuthorPromptLines(author, prompt, more)), k) == if k == "title" then title else ""
  {
    FieldWithoutBullet(title, AuthorPromptLines(author, prompt, more), k);
  }

  /**
   * An author bullet and a prompt bullet followed by one indented line: the
   * author is stored as written, the indented line is trimmed and joined to
   * the prompt with a newline, and the fields no bullet names are empty.
   */
  lemma AuthorAndPrompt(title: string, author: string, prompt: string, more: string)
    requires IsValue(author) && IsValue(prompt) && prompt != ""
    requires more != [] && IsTrimmed(more) && more[0] != '-'
    ensures var e := Build(title, ["- Author: " + author, "- Prompt: " + prompt, "  " + more]);
      e.title == title && e.author == author && e.prompt == prompt + "\n" + more
      && e.authorUrl == "" && e.category == "" && e.imageUrl == "" && e.description == ""
  {
    AuthorPromptClassified(author, prompt, more);
    AuthorPromptAuthor(title, author, prompt, more);
    AuthorPromptPrompt(title, author, prompt, more);
    AuthorPromptUnset(title, author, prompt, more, "title");
    AuthorPromptUnset(title, author, prompt, more, "authorurl");
    AuthorPromptUnset(title, author, prompt, more, "category");
    AuthorPromptUnset(title, author, prompt, more, "imageurl");
    AuthorPromptUnset(title, author, prompt, more, "description");
  }

  lemma CategoryOnlyCategory(title: string, category: string)
    ensures Get(FinalData(title, [BulletLine("category", category)]), "category") == category
  {
    LastBulletWins(title, [BulletLine("category", category)], 0, "category");
  }

  lemma CategoryOnlyUnset(title: string, category: string, k: string)
    requires k in {"title", "author", "authorurl", "imageurl", "prompt", "description"}
    ensures Get(FinalData(title, [BulletLine("category", category)]), k) == if k == "title" then title else ""
  {
    FieldWithoutBullet(title, [BulletLine("category", category)], k);
  }

  /** A block with only a category bullet. */
  lemma CategoryOnly(title: string, category: string)
    requires IsValue(category)
    ensures var e := Build(title, ["- Category: " + category]);
      e.title == title && e.category == category
      && e.author == "" && e.authorUrl == "" && e.imageUrl == "" && e.prompt == "" && e.description == ""
  {
    CategoryBullet(category);
    ClassifyOne("- Category: " + category);
    CategoryOnlyCategory(title, category);
    CategoryOnlyUnset(title, category, "title");
    CategoryOnlyUnset(title, category, "author");
    CategoryOnlyUnset(title, category, "authorurl");
    CategoryOnlyUnset(title, category, "imageurl");
    CategoryOnlyUnset(title, category, "prompt");
    CategoryOnlyUnset(title, category, "description");
  }
}
