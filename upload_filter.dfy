/**
 * The upload file filters and the stored file name: the spreadsheet filter of
 * restructure/server/middleware/upload.js and its twin in server/index.js, the
 * project-file filter of server/routes/project.js, and the `<time>-<random><ext>` name
 * under which an upload is stored.
 */
module UploadFilter {
  import opened JsString

  /** `config.upload.allowedMimeTypes`, also listed in server/index.js. */
  const ExcelMimeTypes: seq<string> := [
    "application/vnd.ms-excel",
    "application/vnd.openxmlformats-officedocument.spreadsheetml.sheet",
    "application/octet-stream"]

  /** `config.upload.allowedTypes` */
  const ExcelExtensions: seq<string> := [".xlsx", ".xls"]

  /** The extensions the project upload accepts. */
  const ProjectExtensions: seq<string> := [
    ".js", ".ts", ".jsx", ".tsx", ".vue", ".py", ".java", ".c", ".cpp", ".cs", ".go", ".php", ".rb",
    ".html", ".css", ".scss", ".less", ".json", ".xml", ".yaml", ".yml", ".md", ".txt",
    ".zip", ".rar", ".7z", ".tar", ".gz"]

  const ExcelOnlyMessage: string := "只允许上传Excel文件 (.xlsx, .xls)"

  /** What the filter passes to its callback: acceptance, or the error. */
  datatype Decision = Accept | Reject(message: string)

  /** `fileFilter` of the spreadsheet upload middleware. */
  function ExcelFilter(toLower: CaseMap, originalName: string, mimetype: string): Decision {
    var isAllowedMimeType := mimetype in ExcelMimeTypes;
    var isAllowedExtension := toLower(ExtName(originalName)) in ExcelExtensions;
    if isAllowedMimeType || isAllowedExtension then Accept else Reject(ExcelOnlyMessage)
  }

  /** `fileFilter` of server/index.js: the extension is compared first, then the type. */
  function LegacyExcelFilter(toLower: CaseMap, originalName: string, mimetype: string): Decision {
    var ext := toLower(ExtName(originalName));
    if ext == ".xlsx" || ext == ".xls" || mimetype in ExcelMimeTypes then Accept else Reject(ExcelOnlyMessage)
  }

  /** `fileFilter` of the project upload: a listed extension, or any `text/` type. */
  function ProjectFilter(toLower: CaseMap, originalName: string, mimetype: string): Decision {
    var ext := toLower(ExtName(originalName));
    if ext in ProjectExtensions || StartsWith(mimetype, "text/") then Accept
    else Reject("不支持的文件类型: " + ext)
  }

  /** The stored name: `Date.now() + '-' + Math.round(Math.random() * 1E9)` and the original extension. */
  function StoredName(now: nat, random: nat, originalName: string): string {
    NatToString(now) + "-" + NatToString(random) + ExtName(originalName)
  }

  // ---------------------------------------------------------------- properties

  /** The two spreadsheet filters decide alike on every file. */
  lemma FiltersAgree(toLower: CaseMap, originalName: string, mimetype: string)
    ensures ExcelFilter(toLower, originalName, mimetype) == LegacyExcelFilter(toLower, originalName, mimetype)
  {
  }

  /** A rejected spreadsheet has neither an allowed type nor an allowed extension, and the error names the allowed ones. */
  lemma ExcelRejection(toLower: CaseMap, originalName: string, mimetype: string)
    ensures ExcelFilter(toLower, originalName, mimetype).Reject? <==>
      mimetype !in ExcelMimeTypes && toLower(ExtName(originalName)) != ".xlsx" && toLower(ExtName(originalName)) != ".xls"
    ensures ExcelFilter(toLower, originalName, mimetype).Reject? ==>
      ExcelFilter(toLower, originalName, mimetype).message == ExcelOnlyMessage
  {
  }

  /** `application/octet-stream` is accepted whatever the name. */
  lemma OctetStreamAccepted(toLower: CaseMap, originalName: string)
    ensures ExcelFilter(toLower, originalName, "application/octet-stream") == Accept
  {
    assert "application/octet-stream" == ExcelMimeTypes[2];
  }

  /** The extension test ignores case: `report.XLSX` passes with any type when lower-casing maps `.XLSX` to `.xlsx`. */
  lemma UpperCaseExtension(toLower: CaseMap, stem: string, mimetype: string)
    requires stem != [] && '.' !in stem && '/' !in stem
    requires toLower(".XLSX") == ".xlsx"
    ensures ExcelFilter(toLower, stem + ".XLSX", mimetype) == Accept
  {
    var e := ".XLSX";
    assert ExtensionShaped(e) by {
      assert e[0] == '.';
      forall k | 1 <= k < |e| ensures e[k] != '.' && e[k] != '/' {
      }
    }
    ExtNameOfStem(stem, e);
    assert ".xlsx" == ExcelExtensions[0];
  }

  /** The project filter accepts every `text/` type, whatever the name. */
  lemma TextTypesAccepted(toLower: CaseMap, originalName: string, subtype: string)
    ensures ProjectFilter(toLower, originalName, "text/" + subtype) == Accept
  {
  }

  /** A project file is refused exactly when neither its extension nor its type is allowed, and the error names the extension. */
  lemma ProjectRejection(toLower: CaseMap, originalName: string, mimetype: string)
    ensures var ext := toLower(ExtName(originalName));
      ProjectFilter(toLower, originalName, mimetype).Reject? <==> ext !in ProjectExtensions && !StartsWith(mimetype, "text/")
    ensures var d := ProjectFilter(toLower, originalName, mimetype);
      d.Reject? ==> d.message == "不支持的文件类型: " + toLower(ExtName(originalName))
  {
  }

  /** The stored name keeps the original's extension. */
  lemma StoredNameExtension(now: nat, random: nat, originalName: string)
    ensures ExtName(StoredName(now, random, originalName)) == ExtName(originalName)
  {
    var stem := NatToString(now) + "-" + NatToString(random);
    assert '.' !in stem && '/' !in stem by {
      forall i | 0 <= i < |stem| ensures stem[i] != '.' && stem[i] != '/' {
        if i < |NatToString(now)| {
          assert stem[i] == NatToString(now)[i];
        } else if i > |NatToString(now)| {
          assert stem[i] == NatToString(random)[i - |NatToString(now)| - 1];
        }
      }
    }
    ExtNameOfStem(stem, ExtName(originalName));
    assert StoredName(now, random, originalName) == stem + ExtName(originalName);
  }
}
