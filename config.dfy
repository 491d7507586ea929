/** Fixed settings of the application (src/modules/config.ts). */
module Config {
  import opened Base
  import opened Types

  const VERSION: string := "1.0.0"

  /** The longest diff sent to the drafting service before it is cut. */
  const MAX_DIFF_LENGTH: nat := 10000

  const COMMIT_TYPES: seq<CommitType> := [
    CommitType("feat", "feat", "A new feature", Some("✨")),
    CommitType("fix", "fix", "A bug fix", Some("🐛")),
    CommitType("docs", "docs", "Documentation only changes", Some("📚")),
    CommitType("style", "style", "Changes that do not affect the meaning of the code", Some("💎")),
    CommitType("refactor", "refactor", "A code change that neither fixes a bug nor adds a feature", Some("📦")),
    CommitType("perf", "perf", "A code change that improves performance", Some("🚀")),
    CommitType("test", "test", "Adding missing tests or correcting existing tests", Some("🧪")),
    CommitType("build", "build", "Changes that affect the build system or external dependencies", Some("🔧")),
    CommitType("ci", "ci", "Changes to our CI configuration files and scripts", Some("🔄")),
    CommitType("chore", "chore", "Other changes that don't modify src or test files", Some("🧹")),
    CommitType("revert", "revert", "Reverts a previous commit", Some("⏪"))
  ]

  const LANGUAGE_OPTIONS: seq<LanguageOption> := [
    LanguageOption("english", "English", "🇺🇸"),
    LanguageOption("indonesian", "Bahasa Indonesia", "🇮🇩")
  ]
}
