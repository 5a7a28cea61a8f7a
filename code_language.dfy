/** The language tag of a code block (`SnippetLanguage` in
    src/processing/code.rs): a closed set of known languages plus `Unknown`
    carrying any other tag verbatim. */
module CodeLanguage {

  datatype SnippetLanguage =
      Ada | Asp | Awk | Bash | BatchFile | C | CMake | Crontab | CSharp | Clojure | Cpp
    | Css | DLang | Diff | Docker | Dotenv | Elixir | Elm | Erlang | File | Fish | Go | GraphQL
    | Haskell | Html | Java | JavaScript | Json | Kotlin | Latex | Lua | Makefile | Mermaid
    | Markdown | Nix | Nushell | OCaml | Perl | Php | Protobuf | Puppet | Python | R | Racket
    | Ruby | Rust | RustScript | Scala | Shell | Sql | Swift | Svelte | Tcl | Terraform
    | Toml | TypeScript | Typst | Unknown(name: string) | Xml | Yaml | Verilog | Vue
    | Zig | Zsh

  /** `SnippetLanguage::from_str`: never fails; a known name or alias gives
      its language and every other text gives `Unknown` of that text. */
  function FromStr(s: string): (r: SnippetLanguage)
    ensures r.Unknown? ==> r.name == s
    ensures r != BatchFile
  {
    match s
    case "ada" => Ada
    case "asp" => Asp
    case "awk" => Awk
    case "bash" => Bash
    case "c" => C
    case "cmake" => CMake
    case "crontab" => Crontab
    case "csharp" => CSharp
    case "clojure" => Clojure
    case "cpp" | "c++" => Cpp
    case "css" => Css
    case "d" => DLang
    case "diff" => Diff
    case "docker" => Docker
    case "dotenv" => Dotenv
    case "elixir" => Elixir
    case "elm" => Elm
    case "erlang" => Erlang
    case "file" => File
    case "fish" => Fish
    case "go" => Go
    case "graphql" => GraphQL
    case "haskell" => Haskell
    case "html" => Html
    case "java" => Java
    case "javascript" | "js" => JavaScript
    case "json" => Json
    case "kotlin" => Kotlin
    case "latex" => Latex
    case "lua" => Lua
    case "make" => Makefile
    case "markdown" => Markdown
    case "mermaid" => Mermaid
    case "nix" => Nix
    case "nushell" | "nu" => Nushell
    case "ocaml" => OCaml
    case "perl" => Perl
    case "php" => Php
    case "protobuf" => Protobuf
    case "puppet" => Puppet
    case "python" => Python
    case "r" => R
    case "racket" => Racket
    case "ruby" => Ruby
    case "rust" => Rust
    case "rust-script" => RustScript
    case "scala" => Scala
    case "shell" | "sh" => Shell
    case "sql" => Sql
    case "svelte" => Svelte
    case "swift" => Swift
    case "tcl" => Tcl
    case "terraform" => Terraform
    case "toml" => Toml
    case "typescript" | "ts" => TypeScript
    case "typst" => Typst
    case "xml" => Xml
    case "yaml" => Yaml
    case "verilog" => Verilog
    case "vue" => Vue
    case "zig" => Zig
    case "zsh" => Zsh
    case other => Unknown(other)
  }

  /** The tags `FromStr` recognises, aliases included. */
  predicate IsKnownName(s: string) {
    s in {
      "ada", "asp", "awk", "bash", "c", "cmake", "crontab", "csharp", "clojure", "cpp", "c++", "css",
      "d", "diff", "docker", "dotenv", "elixir", "elm", "erlang", "file", "fish", "go", "graphql",
      "haskell", "html", "java", "javascript", "js", "json", "kotlin", "latex", "lua", "make",
      "markdown", "mermaid", "nix", "nushell", "nu", "ocaml", "perl", "php", "protobuf", "puppet",
      "python", "r", "racket", "ruby", "rust", "rust-script", "scala", "shell", "sh", "sql",
      "svelte", "swift", "tcl", "terraform", "toml", "typescript", "ts", "typst", "xml", "yaml",
      "verilog", "vue", "zig", "zsh"}
  }

  /** The fallback arm: a tag becomes `Unknown`, carrying the tag, exactly
      when it is none of the known names and aliases. */
  lemma UnknownIsUnrecognised(s: string)
    ensures FromStr(s).Unknown? <==> !IsKnownName(s)
    ensures !IsKnownName(s) ==> FromStr(s) == Unknown(s)
  {
  }

  /** An alias names the same language as its full name. */
  lemma FromStrAlias()
    ensures FromStr("c++") == Cpp && FromStr("cpp") == Cpp
  {
  }

  /** The case of src/processing/code.rs:678-681: a known tag. */
  lemma FromStrKnownExample()
    ensures FromStr("rust") == Rust
  {
  }

  /** The case of src/processing/code.rs:673-676: an unknown tag is kept. */
  lemma FromStrUnknownExample()
    ensures FromStr("potato") == Unknown("potato")
  {
  }
}
