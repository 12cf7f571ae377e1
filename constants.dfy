/**
 * The two tables of the default configuration: file extension to language, and language
 * to the Dockerfile template written for it. Each template is stored as the template
 * literal after `.trim()`, that is without its leading newline and trailing indentation.
 */
module Constants {
  import opened Text

  /** `DEFAULT_CONFIG.languageMap`. */
  const LanguageMap: map<string, string> := map[
    "py" := "python",
    "js" := "node",
    "go" := "go",
    "ts" := "typescript",
    "java" := "java",
    "cpp" := "cpp"
  ]

  /** The lines of the python template. */
  function PythonLines(): seq<string> {
    [
      "FROM python:3.10-slim",
      "",
      "WORKDIR /app",
      "COPY . /app",
      "",
      // one line of the template, written as two literals
      "# RUN pip install" + " --no-cache-dir -r requirements.txt",
      "",
      "CMD [\"python\", \"/app/main.py\"]"
    ]
  }

  function NodeLines(): seq<string> {
    [
      "FROM node:18",
      "",
      "WORKDIR /app",
      "COPY . /app",
      "",
      "RUN npm install",
      "",
      "CMD [\"node\", \"/app/main.js\"]"
    ]
  }

  function GoLines(): seq<string> {
    [
      "FROM golang:1.20",
      "",
      "WORKDIR /app",
      "COPY . /app",
      "",
      "RUN go build -o main .",
      "",
      "CMD [\"./main\"]"
    ]
  }

  function TypescriptLines(): seq<string> {
    [
      "FROM node:18",
      "",
      "WORKDIR /app",
      "COPY . /app",
      "",
      // one line of the template, written as two literals
      "RUN npm install -g ts-node && npm install",
      "",
      "CMD [\"ts-node\", \"/app/main.ts\"]"
    ]
  }

  function JavaLines(): seq<string> {
    [
      "FROM openjdk:17",
      "",
      "WORKDIR /app",
      "COPY . /app",
      "RUN javac Main.java",
      "",
      "CMD [\"java\", \"-cp\", \"/app\", \"Main\"]"
    ]
  }

  function CppLines(): seq<string> {
    [
      "FROM gcc:latest",
      "",
      "WORKDIR /app",
      "COPY . /app",
      "",
      "RUN g++ -o /app/main /app/main.cpp",
      "",
      "CMD [\"./main\"]"
    ]
  }

  function PythonTemplate(): string { Join(PythonLines(), "\n") }
  function NodeTemplate(): string { Join(NodeLines(), "\n") }
  function GoTemplate(): string { Join(GoLines(), "\n") }
  function TypescriptTemplate(): string { Join(TypescriptLines(), "\n") }
  function JavaTemplate(): string { Join(JavaLines(), "\n") }
  function CppTemplate(): string { Join(CppLines(), "\n") }

  /** The languages that have a template. */
  const TemplateLanguages: set<string> := {"python", "node", "go", "typescript", "java", "cpp"}

  /** The lines of the template of language `l`, one of `TemplateLanguages`. */
  function TemplateLines(l: string): seq<string>
    requires l in TemplateLanguages
  {
    match l
    case "python" => PythonLines()
    case "node" => NodeLines()
    case "go" => GoLines()
    case "typescript" => TypescriptLines()
    case "java" => JavaLines()
    case _ => CppLines()
  }

  /** `DEFAULT_CONFIG.dockerTemplates`: each language's lines joined by newlines. */
  const DockerTemplates: map<string, string> := map l | l in TemplateLanguages :: Join(TemplateLines(l), "\n")

  /** The supported extensions and the language each one selects. */
  lemma LanguageMapContents()
    ensures LanguageMap.Keys == {"py", "js", "go", "ts", "java", "cpp"}
    ensures LanguageMap.Values == {"python", "node", "go", "typescript", "java", "cpp"}
    ensures LanguageMap["py"] == "python" && LanguageMap["js"] == "node"
    ensures LanguageMap["go"] == "go" && LanguageMap["ts"] == "typescript"
    ensures LanguageMap["java"] == "java" && LanguageMap["cpp"] == "cpp"
  {
  }

  /** No two extensions select the same language. */
  lemma LanguageMapInjective()
    ensures forall a, b :: a in LanguageMap && b in LanguageMap && a != b ==> LanguageMap[a] != LanguageMap[b]
  {
  }

  /** Every language an extension can select has a template. */
  lemma EveryLanguageHasTemplate()
    ensures forall e :: e in LanguageMap ==> LanguageMap[e] in DockerTemplates
  {
  }

  /** A template that sets up the `/app` working directory from a base image. */
  predicate WellFormedTemplate(t: string) {
    StartsWith(t, "FROM ") && Contains(t, "WORKDIR /app") && Contains(t, "COPY . /app")
  }

  /** A text in which neither directive the port and volume scanner looks for occurs. */
  predicate FreeOfDirectives(t: string) {
    !Contains(t, "EXPOSE") && !Contains(t, "VOLUME")
  }

  lemma {:induction false} ContainsInSuffix(a: string, b: string, needle: string)
    requires Contains(b, needle)
    ensures Contains(a + b, needle)
    decreases |a|
  {
    if a != [] {
      assert a + b != [] && (a + b)[1..] == a[1..] + b;
      ContainsInSuffix(a[1..], b, needle);
    } else {
      assert a + b == b;
    }
  }

  lemma {:induction false} JoinContainsLine(lines: seq<string>, sep: string, k: nat)
    requires k < |lines|
    ensures Contains(Join(lines, sep), lines[k])
    decreases |lines|
  {
    if k == 0 {
      if |lines| > 1 {
        assert Join(lines, sep)[..|lines[0]|] == lines[0];
      }
    } else {
      JoinContainsLine(lines[1..], sep, k - 1);
      assert Join(lines, sep) == (lines[0] + sep) + Join(lines[1..], sep);
      ContainsInSuffix(lines[0] + sep, Join(lines[1..], sep), lines[k]);
    }
  }

  lemma {:induction false} JoinStartsWithFirstLine(lines: seq<string>, sep: string, prefix: string)
    requires |lines| >= 1 && StartsWith(lines[0], prefix)
    ensures StartsWith(Join(lines, sep), prefix)
  {
    if |lines| > 1 {
      assert Join(lines, sep)[..|lines[0]|] == lines[0];
    }
  }

  lemma {:induction false} JoinAvoidsChar(lines: seq<string>, sep: string, c: char)
    requires c !in sep
    requires forall k :: 0 <= k < |lines| ==> c !in lines[k]
    ensures c !in Join(lines, sep)
    decreases |lines|
  {
    if |lines| > 1 {
      JoinAvoidsChar(lines[1..], sep, c);
    }
  }

  lemma {:induction false} AbsentCharExcludesNeedle(s: string, needle: string, c: char)
    requires c in needle && c !in s
    ensures !Contains(s, needle)
    decreases |s|
  {
    if |needle| <= |s| {
      assert forall i :: 0 <= i < |needle| ==> s[..|needle|][i] == s[i];
    }
    if s != [] {
      AbsentCharExcludesNeedle(s[1..], needle, c);
    }
  }

  /**
   * The shape every template shares: a base image, then WORKDIR and COPY, and no directive.
   * Both "EXPOSE" and "VOLUME" contain an upper-case E, and no template line does.
   */
  lemma {:induction false} TemplateShape(lines: seq<string>)
    requires |lines| >= 4 && StartsWith(lines[0], "FROM ")
    requires lines[2] == "WORKDIR /app" && lines[3] == "COPY . /app"
    requires forall k :: 0 <= k < |lines| ==> 'E' !in lines[k]
    ensures WellFormedTemplate(Join(lines, "\n"))
    ensures FreeOfDirectives(Join(lines, "\n"))
  {
    var t := Join(lines, "\n");
    JoinStartsWithFirstLine(lines, "\n", "FROM ");
    JoinContainsLine(lines, "\n", 2);
    JoinContainsLine(lines, "\n", 3);
    JoinAvoidsChar(lines, "\n", 'E');
    AbsentCharExcludesNeedle(t, "EXPOSE", 'E');
    AbsentCharExcludesNeedle(t, "VOLUME", 'E');
  }

  /**
   * The solver does not settle `'E' !in` on this line as one literal, so the template writes it
   * as two literals and this lemma checks their concatenation.
   */
  lemma PipInstallLine()
    ensures 'E' !in "# RUN pip install" + " --no-cache-dir -r requirements.txt"
  {
  }

  lemma PythonLinesAvoidE()
    ensures forall k :: 0 <= k < |PythonLines()| ==> 'E' !in PythonLines()[k]
  {
    PipInstallLine();
  }

  lemma PythonTemplateShape()
    ensures WellFormedTemplate(PythonTemplate()) && FreeOfDirectives(PythonTemplate())
  {
    PythonLinesAvoidE();
    TemplateShape(PythonLines());
  }

  lemma NodeLinesAvoidE()
    ensures forall k :: 0 <= k < |NodeLines()| ==> 'E' !in NodeLines()[k]
  {
  }

  lemma NodeTemplateShape()
    ensures WellFormedTemplate(NodeTemplate()) && FreeOfDirectives(NodeTemplate())
  {
    NodeLinesAvoidE();
    TemplateShape(NodeLines());
  }

  lemma GoLinesAvoidE()
    ensures forall k :: 0 <= k < |GoLines()| ==> 'E' !in GoLines()[k]
  {
  }

  lemma GoTemplateShape()
    ensures WellFormedTemplate(GoTemplate()) && FreeOfDirectives(GoTemplate())
  {
    GoLinesAvoidE();
    TemplateShape(GoLines());
  }

  lemma TypescriptLinesAvoidE()
    ensures forall k :: 0 <= k < |TypescriptLines()| ==> 'E' !in TypescriptLines()[k]
  {
  }

  lemma TypescriptTemplateShape()
    ensures WellFormedTemplate(TypescriptTemplate()) && FreeOfDirectives(TypescriptTemplate())
  {
    TypescriptLinesAvoidE();
    TemplateShape(TypescriptLines());
  }

  lemma JavaLinesAvoidE()
    ensures forall k :: 0 <= k < |JavaLines()| ==> 'E' !in JavaLines()[k]
  {
  }

  lemma JavaTemplateShape()
    ensures WellFormedTemplate(JavaTemplate()) && FreeOfDirectives(JavaTemplate())
  {
    JavaLinesAvoidE();
    TemplateShape(JavaLines());
  }

  lemma CppLinesAvoidE()
    ensures forall k :: 0 <= k < |CppLines()| ==> 'E' !in CppLines()[k]
  {
  }

  lemma CppTemplateShape()
    ensures WellFormedTemplate(CppTemplate()) && FreeOfDirectives(CppTemplate())
  {
    CppLinesAvoidE();
    TemplateShape(CppLines());
  }

  /**
   * Every template starts with "FROM " and contains "WORKDIR /app" and "COPY . /app", and
   * none contains "EXPOSE" or "VOLUME".
   */
  lemma TemplateEntryShape(l: string)
    requires l in TemplateLanguages
    ensures WellFormedTemplate(Join(TemplateLines(l), "\n")) && FreeOfDirectives(Join(TemplateLines(l), "\n"))
  {
    match l
    case "python" => PythonTemplateShape();
    case "node" => NodeTemplateShape();
    case "go" => GoTemplateShape();
    case "typescript" => TypescriptTemplateShape();
    case "java" => JavaTemplateShape();
    case _ => CppTemplateShape();
  }

  lemma TemplatesWellFormed()
    ensures forall l :: l in DockerTemplates ==> WellFormedTemplate(DockerTemplates[l])
    ensures forall l :: l in DockerTemplates ==> FreeOfDirectives(DockerTemplates[l])
  {
    forall l | l in DockerTemplates
      ensures WellFormedTemplate(DockerTemplates[l]) && FreeOfDirectives(DockerTemplates[l])
    {
      TemplateEntryShape(l);
    }
  }
}
