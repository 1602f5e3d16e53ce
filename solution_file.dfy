/**
 * The `createFile` command after a name has been accepted: the file `<name>.cs`
 * in the solutions folder is written with a class skeleton inside the namespace
 * `Problem<number>`, and only when no file of that name exists yet.
 */
module SolutionFile {
  import opened Wrappers
  import opened DigitRuns
  import opened Extractor
  import opened NameValidation

  const NamespaceKeyword: string := "namespace "
  const NamespaceStem: string := "Problem"

  /** What template interpolation prints for `undefined`. */
  const UndefinedText: string := "undefined"

  /** Everything after the namespace line: the class skeleton, with the template's own whitespace. */
  const ClassSkeleton: string := "\n{\n" + "  \tpublic class Solution\n" + "\t{\n\t\tpublic\n\t}\n}\n"

  /** `${codeNumber}`: the digits, or `undefined` when none were found. */
  function Interpolate(code: Option<string>): string
  {
    match code
    case Some(digits) => digits
    case None => UndefinedText
  }

  /** The namespace `Problem${codeNumber}` for a file name. */
  function NamespaceName(name: string): string
  {
    NamespaceStem + Interpolate(ExtractLongestNumber(name))
  }

  /** The text written to a new solution file. */
  function Content(name: string): string
  {
    NamespaceKeyword + NamespaceName(name) + ClassSkeleton
  }

  /** The file created for an accepted name, `${name}.cs`. */
  function FileName(name: string): string
  {
    name + ".cs"
  }

  /** The namespace is always an identifier-style name: `Problem` followed by digits or by `undefined`. */
  lemma NamespaceNameIsIdentifier(name: string)
    ensures ValidateInput(NamespaceName(name)).None?
  {
    var n := NamespaceName(name);
    if ExtractLongestNumber(name).Some? {
      ExtractIsLongestDigitString(name);
    }
    assert forall k :: 1 <= k < |n| ==> IsWordChar(n[k]);
  }

  /** A name without digits gets the namespace `Problemundefined`; `Solution` is one such name. */
  lemma DigitFreeNameGivesUndefined(name: string)
    requires NoDigits(name)
    ensures NamespaceName(name) == "Problemundefined"
    ensures Content(name) == "namespace Problemundefined" + ClassSkeleton
  {
  }

  /** Text around a number that adds no digit of its own leaves that number as the one extracted. */
  lemma {:induction false} NumberBetween(before: string, digits: string, after: string)
    requires NoDigits(before) && NoDigits(after)
    requires |digits| > 0 && AllDigits(digits)
    ensures ExtractLongestNumber(before + digits + after) == Some(digits)
  {
    var c := before + digits + after;
    var i, j := |before|, |before| + |digits|;
    assert forall k :: 0 <= k < i ==> c[k] == before[k];
    assert forall k :: i <= k < j ==> c[k] == digits[k - i];
    assert forall k :: j <= k < |c| ==> c[k] == after[k - j];
    assert c[i..j] == digits;
    ExtractSoleRun(c, i, j);
  }

  /** Text without digits around more text without digits has no digit. */
  lemma {:induction false} NoDigitsConcat(before: string, middle: string, after: string)
    requires NoDigits(before) && NoDigits(middle) && NoDigits(after)
    ensures NoDigits(before + middle + after)
  {
    var c := before + middle + after;
    assert forall k :: 0 <= k < |before| ==> c[k] == before[k];
    assert forall k :: |before| <= k < |before| + |middle| ==> c[k] == middle[k - |before|];
    assert forall k :: |before| + |middle| <= k < |c| ==> c[k] == after[k - |before| - |middle|];
  }

  lemma TemplateHasNoDigits()
    ensures NoDigits(NamespaceKeyword + NamespaceStem)
    ensures NoDigits(UndefinedText)
    ensures NoDigits(ClassSkeleton)
  {
    assert NoDigits("\n{\n");
    assert NoDigits("  \tpublic class Solution\n");
    assert NoDigits("\t{\n\t\tpublic\n\t}\n}\n");
    NoDigitsConcat("\n{\n", "  \tpublic class Solution\n", "\t{\n\t\tpublic\n\t}\n}\n");
  }

  /**
   * Reading the number back out of the generated text gives the number of the name:
   * neither the template around it nor `undefined` holds a digit.
   */
  lemma ContentKeepsNumber(name: string)
    ensures ExtractLongestNumber(Content(name)) == ExtractLongestNumber(name)
  {
    var prefix := NamespaceKeyword + NamespaceStem;
    TemplateHasNoDigits();
    match ExtractLongestNumber(name)
    case None =>
      assert Content(name) == prefix + UndefinedText + ClassSkeleton;
      NoDigitsConcat(prefix, UndefinedText, ClassSkeleton);
    case Some(d) =>
      ExtractIsLongestDigitString(name);
      assert Content(name) == prefix + d + ClassSkeleton;
      NumberBetween(prefix, d, ClassSkeleton);
  }

  /**
   * `fs.pathExists` followed by `fs.writeFile` on the solutions folder, seen as a map
   * from file name to contents: the file is added when absent and nothing changes otherwise.
   */
  function CreateIfAbsent(files: map<string, string>, file: string, content: string): (r: map<string, string>)
    ensures r.Keys == files.Keys + {file}
    ensures file in files ==> r[file] == files[file]
    ensures file !in files ==> r[file] == content
    ensures forall f :: f in files && f != file ==> r[f] == files[f]
  {
    if file in files then files else files[file := content]
  }

  /** Creating a file a second time, whatever the new content, leaves the folder as the first creation left it. */
  lemma CreateIfAbsentIdempotent(files: map<string, string>, file: string, content: string, content': string)
    ensures CreateIfAbsent(CreateIfAbsent(files, file, content), file, content') == CreateIfAbsent(files, file, content)
  {
  }

  /** The solutions folder of the workspace, as the files it holds. */
  class SolutionsFolder {
    var files: map<string, string>

    constructor (files: map<string, string>)
      ensures this.files == files
    {
      this.files := files;
    }

    /**
     * The write step of the `createFile` command: compute `${name}.cs`, and when it does not exist yet,
     * extract the number from the name and write the template there.
     */
    method CreateFile(name: string) returns (file: string)
      modifies this
      ensures file == FileName(name)
      ensures files == CreateIfAbsent(old(files), file, Content(name))
    {
      file := name + ".cs";
      if file !in files {
        var codeNumber := ExtractLongestNumber(name);
        var content := NamespaceKeyword + (NamespaceStem + Interpolate(codeNumber)) + ClassSkeleton;
        files := files[file := content];
      }
    }
  }
}
