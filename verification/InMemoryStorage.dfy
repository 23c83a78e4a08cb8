/** The in-memory implementation of the database interface: accounts and channels. */
module InMemoryStorage {
  import opened Basics

  datatype InputSettings = InputSettings(clientName: string, clientPassword: string)

  /** The maps of Storage and the counter of its id generator. */
  datatype Maps = Maps(
    counter: Id,
    userIds: map<string, Id>,
    settings: map<Id, InputSettings>,
    channelIds: map<string, Id>)

  const NO_MAPS := Maps(0, map[], map[], map[])

  function RegUser(s: Maps, login: string, password: string): (Maps, Id) {
    if login in s.userIds then (s, NO_ID)
    else
      var id := s.counter + 1;
      (s.(counter := id, userIds := s.userIds[login := id],
          settings := s.settings[id := InputSettings(login, password)]), id)
  }

  function AuthUser(s: Maps, login: string, password: string): Id {
    if login in s.userIds && s.userIds[login] in s.settings && s.settings[s.userIds[login]].clientPassword == password
    then s.userIds[login]
    else NO_ID
  }

  predicate KnowsChannel(s: Maps, name: string) { name in s.channelIds }

  function MakeChannel(s: Maps, name: string): (Maps, Id) {
    if name in s.channelIds then (s, s.channelIds[name])
    else
      var id := s.counter + 1;
      (s.(counter := id, channelIds := s.channelIds[name := id]), id)
  }

  /** Every id in the maps was generated, and every user id has its settings under the same login. */
  predicate Consistent(s: Maps) {
    && (forall login :: login in s.userIds ==>
          && 0 < s.userIds[login] <= s.counter && s.userIds[login] in s.settings
          && s.settings[s.userIds[login]].clientName == login)
    && (forall name :: name in s.channelIds ==> 0 < s.channelIds[name] <= s.counter)
    && (forall a, b :: a in s.channelIds && b in s.channelIds && a != b ==> s.channelIds[a] != s.channelIds[b])
  }

  class GeneratorId {
    var counterId: Id

    constructor ()
      ensures counterId == 0
    {
      counterId := 0;
    }

    method Generate() returns (id: Id)
      modifies this
      ensures id == counterId == old(counterId) + 1
    {
      counterId := counterId + 1;
      id := counterId;
    }
  }

  class Storage {
    const generator: GeneratorId
    var nameIdUsers: map<string, Id>
    var nameSettingsUsers: map<Id, InputSettings>
    var nameIdChannels: map<string, Id>

    function View(): Maps
      reads this, generator
    {
      Maps(generator.counterId, nameIdUsers, nameSettingsUsers, nameIdChannels)
    }

    constructor ()
      ensures View() == NO_MAPS && fresh(generator)
    {
      generator := new GeneratorId();
      nameIdUsers := map[];
      nameSettingsUsers := map[];
      nameIdChannels := map[];
    }

    method CheckRegUser(settings: InputSettings) returns (id: Id)
      requires Consistent(View())
      modifies this, generator
      ensures Consistent(View())
      ensures (View(), id) == RegUser(old(View()), settings.clientName, settings.clientPassword)
    {
      id := NO_ID;
      if settings.clientName !in nameIdUsers {
        id := generator.Generate();
        nameIdUsers := nameIdUsers[settings.clientName := id];
        nameSettingsUsers := nameSettingsUsers[id := settings];
      }
    }

    /** The branch for an id without settings cannot be reached. */
    method CheckAuthUser(settings: InputSettings) returns (id: Id)
      requires Consistent(View())
      ensures id == AuthUser(View(), settings.clientName, settings.clientPassword)
    {
      id := NO_ID;
      if settings.clientName in nameIdUsers {
        var found := nameIdUsers[settings.clientName];
        if found in nameSettingsUsers {
          if nameSettingsUsers[found].clientPassword == settings.clientPassword { id := found; }
        } else {
          assert false;
        }
      }
    }

    method HasChannel(name: string) returns (found: bool)
      ensures found == KnowsChannel(View(), name)
    {
      found := name in nameIdChannels;
    }

    method CreateChannel(name: string) returns (id: Id)
      requires Consistent(View())
      modifies this, generator
      ensures Consistent(View())
      ensures (View(), id) == MakeChannel(old(View()), name)
    {
      var found := HasChannel(name);
      if !found {
        id := generator.Generate();
        nameIdChannels := nameIdChannels[name := id];
      }
      id := nameIdChannels[name];
    }
  }
}
