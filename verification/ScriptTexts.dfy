/** The fixed text of the wrapper scripts. */
module ScriptTexts {
  const RUN := "exec \"${NEXTASK_EXECUTABLE:?nextask worker runtime is required}\" _run "
  const ROUTING_RESET :=
    "unset GIT_DIR GIT_COMMON_DIR GIT_WORK_TREE GIT_INDEX_FILE GIT_OBJECT_DIRECTORY GIT_ALTERNATE_OBJECT_DIRECTORIES"
  const OPEN := "\n(\nset -eu\nexport GIT_TERMINAL_PROMPT=0\n"
  const REQUIRE_GIT :=
    "command -v git >/dev/null 2>&1 || { printf '%s\\n' 'nextask: git integration requires git on the worker' >&2; exit 127; }\n"
  const INIT := "git -c core.hooksPath=/dev/null init --quiet --template= --object-format="
  const SET_ORIGIN := " .\ngit -c core.hooksPath=/dev/null config --local remote.origin.url "
  const FETCH := "\ngit -c core.hooksPath=/dev/null fetch --quiet --no-tags --no-recurse-submodules -- "
  const CHECK := "\ngit -c core.hooksPath=/dev/null cat-file -e "
  const CHECKOUT := "\ngit -c core.hooksPath=/dev/null checkout --quiet --detach --force "
  const RUN_COMMAND := "\n) && exec sh -c "

  /** A text without NUL and its first character. */
  predicate Plain(text: string, first: char) {
    '\0' !in text && text != "" && text[0] == first
  }

  // A long text is shown to be plain by its beginnings, each a step the verifier can take at once.

  lemma RunIsPlain()
    ensures Plain(RUN, 'e')
  {
    assert Plain("exec \"${NEXTASK_EXECUTABLE:?ne", 'e');
    assert Plain("exec \"${NEXTASK_EXECUTABLE:?nextask worker runtime is requir", 'e');
  }

  lemma RoutingResetIsPlain()
    ensures Plain(ROUTING_RESET, 'u')
  {
    assert Plain("unset GIT_DIR GIT_COMMON_DIR G", 'u');
    assert Plain("unset GIT_DIR GIT_COMMON_DIR GIT_WORK_TREE GIT_INDEX_FILE GI", 'u');
    assert Plain("unset GIT_DIR GIT_COMMON_DIR GIT_WORK_TREE GIT_INDEX_FILE GIT_OBJECT_DIRECTORY GIT_ALTERNA", 'u');
  }

  lemma OpenIsPlain()
    ensures Plain(OPEN, '\n')
  {
    assert Plain("\n(\nset -eu\nexport GIT_TERMINAL", '\n');
  }

  lemma RequireGitIsPlain()
    ensures Plain(REQUIRE_GIT, 'c')
  {
    assert Plain("command -v git >/dev/null 2>&1", 'c');
    assert Plain("command -v git >/dev/null 2>&1 || { printf '%s\\n' 'nextask: ", 'c');
    assert Plain("command -v git >/dev/null 2>&1 || { printf '%s\\n' 'nextask: git integration requires git o", 'c');
  }

  lemma InitIsPlain()
    ensures Plain(INIT, 'g')
  {
    assert Plain("git -c core.hooksPath=/dev/nul", 'g');
    assert Plain("git -c core.hooksPath=/dev/null init --quiet --template= --o", 'g');
  }

  lemma SetOriginIsPlain()
    ensures Plain(SET_ORIGIN, ' ')
  {
    assert Plain(" .\ngit -c core.hooksPath=/dev/", ' ');
    assert Plain(" .\ngit -c core.hooksPath=/dev/null config --local remote.ori", ' ');
  }

  lemma FetchIsPlain()
    ensures Plain(FETCH, '\n')
  {
    assert Plain("\ngit -c core.hooksPath=/dev/nu", '\n');
    assert Plain("\ngit -c core.hooksPath=/dev/null fetch --quiet --no-tags --n", '\n');
  }

  lemma CheckIsPlain()
    ensures Plain(CHECK, '\n')
  {
    assert Plain("\ngit -c core.hooksPath=/dev/nu", '\n');
  }

  lemma CheckoutIsPlain()
    ensures Plain(CHECKOUT, '\n')
  {
    assert Plain("\ngit -c core.hooksPath=/dev/nu", '\n');
    assert Plain("\ngit -c core.hooksPath=/dev/null checkout --quiet --detach -", '\n');
  }

  lemma RunCommandIsPlain()
    ensures Plain(RUN_COMMAND, '\n')
  {
  }
}
