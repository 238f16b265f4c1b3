/** The silent-install switches the installer knows by heart, and how
    `str.split()` breaks them up. */
module Flags {
  import opened Text

  /** The switches an EXE gets in silent mode when its record has no
      `silent_args`. */
  const DefaultSilentArgs: string := "/S /silent /quiet"

  /** Malwarebytes' own `silent_args` in the built-in catalog. */
  const MalwarebytesSilentArgs: string := "/VERYSILENT /SUPPRESSMSGBOXES /NORESTART"

  /** A switch made of `/` and ASCII letters is a whitespace-free token. */
  lemma SwitchIsWord(w: string)
    requires w != []
    requires forall i :: 0 <= i < |w| ==> w[i] == '/' || 'A' <= w[i] <= 'Z' || 'a' <= w[i] <= 'z'
    ensures IsWord(w)
  {
  }

  lemma SpellDefault(s: string)
    requires s == DefaultSilentArgs
    ensures s == "/S" + " " + "/silent" + " " + "/quiet"
  {
  }

  lemma SpellMalwarebytes(s: string)
    requires s == MalwarebytesSilentArgs
    ensures s == "/VERYSILENT" + " " + "/SUPPRESSMSGBOXES" + " " + "/NORESTART"
  {
  }

  /** The default silent switches split into `/S`, `/silent`, `/quiet`. */
  lemma DefaultSilentWords()
    ensures Words(DefaultSilentArgs) == ["/S", "/silent", "/quiet"]
  {
    SpellDefault(DefaultSilentArgs);
    SwitchIsWord("/S");
    SwitchIsWord("/silent");
    SwitchIsWord("/quiet");
    WordsOfThree("/S", "/silent", "/quiet");
  }

  /** Malwarebytes' switches split into `/VERYSILENT`, `/SUPPRESSMSGBOXES`,
      `/NORESTART`. */
  lemma MalwarebytesWords()
    ensures Words(MalwarebytesSilentArgs) == ["/VERYSILENT", "/SUPPRESSMSGBOXES", "/NORESTART"]
  {
    SpellMalwarebytes(MalwarebytesSilentArgs);
    SwitchIsWord("/VERYSILENT");
    SwitchIsWord("/SUPPRESSMSGBOXES");
    SwitchIsWord("/NORESTART");
    WordsOfThree("/VERYSILENT", "/SUPPRESSMSGBOXES", "/NORESTART");
  }
}
